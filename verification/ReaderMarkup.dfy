/** The printed document is well-formed markup that shows the document's text in the document's styles and links, and
    stays so when it is trimmed and its blank lines are collapsed. */
module ReaderMarkup {
  import opened Wrappers
  import opened Chars
  import opened Reader

  // ----- Each element's tags ----------------------------------------------

  /** What an HTML element makes of the text inside it. */
  function Tags(tag: Tag, href: Option<string>): seq<Mark> {
    match tag
    case B | Strong => [Named("b")]
    case I | Em => [Named("i")]
    case U => [Named("u")]
    case S | Del | Strike => [Named("s")]
    case Code | Tt | Kbd | Samp | Pre => [Named("tt")]
    case H1 | H2 | H3 | H4 | H5 | H6 => [Named("big"), Named("b")]
    case A => if href.Some? then [Link(href.value)] else []
    case _ => []
  }

  /** Only these are underlined or struck through. */
  lemma UnderlinedAndStruck(tag: Tag, href: Option<string>)
    ensures Named("u") in Tags(tag, href) <==> tag.U?
    ensures Named("s") in Tags(tag, href) <==> tag.S? || tag.Del? || tag.Strike?
  {
  }

  /** What the reader of the markup gets before the element's content. */
  function Starts(tag: Tag, href: Option<string>, k: seq<Mark>): seq<Item> {
    if tag.A? && href.Some? then [Opens(href.value)] else Glyphs(Lead(tag), k)
  }

  /** The document as it should be seen: its text under the marks of the elements around it, and its links. */
  function Styled(n: Node, k: seq<Mark>): seq<Item>
    decreases n, 0
  {
    match n
    case Text(text) => Glyphs(text, k)
    case Other => []
    case Element(tag, href, alt, children) =>
      if tag.Br? then Glyphs("\n", k)
      else if tag.Img? then Glyphs(Bracketed(alt, false), k)
      else Starts(tag, href, k) + StyledAll(children, k + Tags(tag, href)) + Glyphs(Trail(tag), k)
  }

  function StyledAll(ns: seq<Node>, k: seq<Mark>): seq<Item>
    decreases ns, 0
  {
    if ns == [] then [] else StyledAll(ns[..|ns| - 1], k) + Styled(ns[|ns| - 1], k)
  }

  // ----- Its text, its links and its styles -------------------------------

  function CharOf(x: Item): string {
    if x.Glyph? then [x.ch] else ""
  }

  function TargetOf(x: Item): seq<string> {
    if x.Opens? then [x.target] else []
  }

  function CharsOf(items: seq<Item>): string {
    if items == [] then "" else CharsOf(items[..|items| - 1]) + CharOf(items[|items| - 1])
  }

  function TargetsOf(items: seq<Item>): seq<string> {
    if items == [] then [] else TargetsOf(items[..|items| - 1]) + TargetOf(items[|items| - 1])
  }

  lemma {:induction false} CharsConcat(a: seq<Item>, b: seq<Item>)
    ensures CharsOf(a + b) == CharsOf(a) + CharsOf(b)
    decreases |b|
  {
    if b == [] {
      assert a + b == a;
    } else {
      CharsConcat(a, b[..|b| - 1]);
      assert (a + b)[..|a + b| - 1] == a + b[..|b| - 1];
    }
  }

  lemma {:induction false} TargetsConcat(a: seq<Item>, b: seq<Item>)
    ensures TargetsOf(a + b) == TargetsOf(a) + TargetsOf(b)
    decreases |b|
  {
    if b == [] {
      assert a + b == a;
    } else {
      TargetsConcat(a, b[..|b| - 1]);
      assert (a + b)[..|a + b| - 1] == a + b[..|b| - 1];
    }
  }

  lemma ItemsConcat(a: seq<Item>, b: seq<Item>)
    ensures CharsOf(a + b) == CharsOf(a) + CharsOf(b)
    ensures TargetsOf(a + b) == TargetsOf(a) + TargetsOf(b)
  {
    CharsConcat(a, b);
    TargetsConcat(a, b);
  }

  lemma GlyphsAre(s: string, k: seq<Mark>)
    ensures CharsOf(Glyphs(s, k)) == s && TargetsOf(Glyphs(s, k)) == []
  {
    GlyphsSpell(s, k);
    GlyphsLinkNowhere(s, k);
  }

  lemma {:induction false} GlyphsSpell(s: string, k: seq<Mark>)
    ensures CharsOf(Glyphs(s, k)) == s
  {
    if s != [] {
      var n := |s| - 1;
      GlyphsSpell(s[..n], k);
      assert Glyphs(s, k)[..n] == Glyphs(s[..n], k);
    }
  }

  lemma {:induction false} GlyphsLinkNowhere(s: string, k: seq<Mark>)
    ensures TargetsOf(Glyphs(s, k)) == []
  {
    if s != [] {
      var n := |s| - 1;
      GlyphsLinkNowhere(s[..n], k);
      assert Glyphs(s, k)[..n] == Glyphs(s[..n], k);
    }
  }

  /** The targets of the anchors in document order; what stands inside an image or a line break is not printed. */
  function Hrefs(n: Node): seq<string>
    decreases n, 0
  {
    match n
    case Element(tag, href, _, children) =>
      if tag.Br? || tag.Img? then []
      else (if tag.A? && href.Some? then [href.value] else []) + HrefsAll(children)
    case _ => []
  }

  function HrefsAll(ns: seq<Node>): seq<string>
    decreases ns, 0
  {
    if ns == [] then [] else HrefsAll(ns[..|ns| - 1]) + Hrefs(ns[|ns| - 1])
  }

  lemma StartsAre(tag: Tag, href: Option<string>, k: seq<Mark>)
    ensures CharsOf(Starts(tag, href, k)) == Lead(tag)
    ensures TargetsOf(Starts(tag, href, k)) == if tag.A? && href.Some? then [href.value] else []
  {
    GlyphsAre(Lead(tag), k);
    if tag.A? && href.Some? {
      assert [Opens(href.value)][..0] == [];
    }
  }

  /** Without its styles the styled document is the plain text, and its links are the anchors. */
  lemma {:induction false} StyledIsPlain(n: Node, k: seq<Mark>)
    ensures CharsOf(Styled(n, k)) == Plain(n) && TargetsOf(Styled(n, k)) == Hrefs(n)
    decreases n, 0
  {
    match n
    case Text(text) => GlyphsAre(text, k);
    case Other =>
    case Element(tag, href, alt, children) =>
      if tag.Br? {
        GlyphsAre("\n", k);
      } else if tag.Img? {
        GlyphsAre(Bracketed(alt, false), k);
      } else {
        StyledAllIsPlain(children, k + Tags(tag, href));
        StartsAre(tag, href, k);
        GlyphsAre(Trail(tag), k);
        ItemsConcat(Starts(tag, href, k), StyledAll(children, k + Tags(tag, href)));
        ItemsConcat(Starts(tag, href, k) + StyledAll(children, k + Tags(tag, href)), Glyphs(Trail(tag), k));
      }
  }

  lemma {:induction false} StyledAllIsPlain(ns: seq<Node>, k: seq<Mark>)
    ensures CharsOf(StyledAll(ns, k)) == PlainAll(ns) && TargetsOf(StyledAll(ns, k)) == HrefsAll(ns)
    decreases ns, 0
  {
    if ns != [] {
      var n := |ns| - 1;
      StyledAllIsPlain(ns[..n], k);
      StyledIsPlain(ns[n], k);
      ItemsConcat(StyledAll(ns[..n], k), Styled(ns[n], k));
    }
  }

  // ----- Each tag passes --------------------------------------------------

  lemma OpenTagPasses(k: seq<Mark>, t: string)
    requires t in PLAIN_TAGS
    ensures Passes(InText(k), "<" + t + ">", InText(k + [Named(t)]), [])
  {
    TagPasses(k, t);
  }

  lemma CloseTagPasses(k: seq<Mark>, m: Mark)
    requires NameOf(m) in PLAIN_TAGS || NameOf(m) == "a"
    ensures Passes(InText(k + [m]), "</" + NameOf(m) + ">", InText(k), [])
  {
    var t := NameOf(m);
    var body := "/" + t;
    assert body[0] == '/' && body[1..] == t;
    assert forall i :: 0 < i < |body| ==> body[i] == t[i - 1];
    TagPasses(k + [m], body);
    assert (k + [m])[..|k + [m]| - 1] == k;
    assert "<" + body + ">" == "</" + t + ">";
  }

  lemma HeadingOpens(k: seq<Mark>)
    ensures Passes(InText(k), "<big><b>", InText(k + [Named("big"), Named("b")]), [])
  {
    OpenTagPasses(k, "big");
    OpenTagPasses(k + [Named("big")], "b");
    assert "<" + "big" + ">" == "<big>" && "<" + "b" + ">" == "<b>";
    PassesAfter(InText(k), "<big>", InText(k + [Named("big")]), "<b>", InText(k + [Named("big")] + [Named("b")]), []);
    assert k + [Named("big")] + [Named("b")] == k + [Named("big"), Named("b")];
    assert "<big>" + "<b>" == "<big><b>";
  }

  lemma HeadingCloses(k: seq<Mark>)
    ensures Passes(InText(k + [Named("big"), Named("b")]), "</b></big>", InText(k), [])
  {
    assert k + [Named("big"), Named("b")] == k + [Named("big")] + [Named("b")];
    CloseTagPasses(k + [Named("big")], Named("b"));
    CloseTagPasses(k, Named("big"));
    assert "</" + "b" + ">" == "</b>" && "</" + "big" + ">" == "</big>";
    PassesAfter(InText(k + [Named("big"), Named("b")]), "</b>", InText(k + [Named("big")]), "</big>", InText(k), []);
    assert "</b>" + "</big>" == "</b></big>";
  }

  /** A closing tag followed by the end of a paragraph. */
  lemma ClosesParagraph(from: Scan, close: string, k: seq<Mark>, all: string)
    requires Passes(from, close, InText(k), []) && all == close + "\n\n"
    ensures Passes(from, all, InText(k), Glyphs("\n\n", k))
  {
    RawPasses(k, "\n\n");
    PassesAfter(from, close, InText(k), "\n\n", InText(k), Glyphs("\n\n", k));
  }

  lemma LinkNamePasses(k: seq<Mark>)
    ensures Passes(InText(k), "<" + "a href=", InTag(k, "a href="), [])
  {
    PassesOne(InText(k), '<');
    TagBodyPasses(k, "", "a href=");
    assert "" + "a href=" == "a href=";
    PassesAfter(InText(k), "<", InTag(k, ""), "a href=", InTag(k, "a href="), []);
  }

  lemma LinkHeadText()
    ensures "<" + "a href=" + "\"" == "<a href=\""
  {
    var head := "<" + "a href=" + "\"";
    assert |head| == 9;
    assert head[0] == '<' && head[1] == 'a' && head[2] == ' ' && head[3] == 'h';
    assert head[4] == 'r' && head[5] == 'e' && head[6] == 'f' && head[7] == '=' && head[8] == '\"';
  }

  lemma LinkHeadPasses(k: seq<Mark>)
    ensures Passes(InText(k), "<a href=\"", InHref(k, ""), [])
  {
    LinkNamePasses(k);
    PassesOne(InTag(k, "a href="), '\"');
    PassesAfter(InText(k), "<" + "a href=", InTag(k, "a href="), "\"", InHref(k, ""), []);
    LinkHeadText();
  }

  lemma LinkTailPasses(k: seq<Mark>, target: string)
    ensures Passes(InHref(k, target), "\">", InText(k + [Link(target)]), [Opens(target)])
  {
    PassesOne(InHref(k, target), '\"');
    PassesOne(AfterHref(k, target), '>');
    PassesAfter(InHref(k, target), "\"", AfterHref(k, target), ">", InText(k + [Link(target)]), [Opens(target)]);
    assert "\"" + ">" == "\">";
  }

  lemma LinkOpens(k: seq<Mark>, href: string)
    ensures Passes(InText(k), "<a href=\"" + Escape(href) + "\">", InText(k + [Link(href)]), [Opens(href)])
  {
    LinkHeadPasses(k);
    EscapePasses(k, "", href);
    assert "" + href == href;
    LinkTailPasses(k, href);
    PassesAfter(InText(k), "<a href=\"", InHref(k, ""), Escape(href), InHref(k, href), []);
    PassesAfter(InText(k), "<a href=\"" + Escape(href), InHref(k, href), "\">", InText(k + [Link(href)]),
                [Opens(href)]);
  }

  /** The elements that only change the look of a stretch of text. */
  predicate IsStyle(tag: Tag) {
    tag.B? || tag.Strong? || tag.I? || tag.Em? || tag.U? || tag.S? || tag.Del? || tag.Strike? || IsFixedWidth(tag)
  }

  predicate IsFixedWidth(tag: Tag) {
    tag.Code? || tag.Tt? || tag.Kbd? || tag.Samp? || tag.Pre?
  }

  lemma StyleTags(tag: Tag, href: Option<string>) returns (t: string)
    requires IsStyle(tag)
    ensures t in PLAIN_TAGS && Tags(tag, href) == [Named(t)] && Opening(tag, href) == "<" + t + ">"
    ensures !tag.Pre? ==> Closing(tag, href) == "</" + t + ">"
    ensures tag.Pre? ==> Closing(tag, href) == "</" + t + ">" + "\n\n"
  {
    t := Tags(tag, href)[0].name;
  }

  lemma HeadingText(tag: Tag, href: Option<string>)
    requires IsHeading(tag)
    ensures Opening(tag, href) == "<big><b>" && Closing(tag, href) == "</b></big>" + "\n\n"
    ensures Tags(tag, href) == [Named("big"), Named("b")] && Lead(tag) == "" && Trail(tag) == "\n\n"
  {
  }

  predicate IsLink(tag: Tag, href: Option<string>) {
    tag.A? && href.Some?
  }

  /** The elements that are printed without any tag. */
  predicate IsBare(tag: Tag, href: Option<string>) {
    !IsStyle(tag) && !IsHeading(tag) && !IsLink(tag, href)
  }

  lemma BareText(tag: Tag, href: Option<string>)
    requires IsBare(tag, href)
    ensures Tags(tag, href) == [] && Opening(tag, href) == Lead(tag) && Closing(tag, href) == Trail(tag)
    ensures '<' !in Lead(tag) && '>' !in Lead(tag) && '&' !in Lead(tag)
    ensures '<' !in Trail(tag) && '>' !in Trail(tag) && '&' !in Trail(tag)
  {
  }

  lemma OpeningPasses(tag: Tag, href: Option<string>, k: seq<Mark>)
    ensures Passes(InText(k), Opening(tag, href), InText(k + Tags(tag, href)), Starts(tag, href, k))
  {
    if IsStyle(tag) {
      var t := StyleTags(tag, href);
      OpenTagPasses(k, t);
    } else if IsHeading(tag) {
      HeadingText(tag, href);
      HeadingOpens(k);
    } else if IsLink(tag, href) {
      LinkOpens(k, href.value);
    } else {
      BareText(tag, href);
      RawPasses(k, Lead(tag));
      assert k + [] == k;
    }
  }

  lemma StyleCloses(tag: Tag, href: Option<string>, k: seq<Mark>)
    requires IsStyle(tag)
    ensures Passes(InText(k + Tags(tag, href)), Closing(tag, href), InText(k), Glyphs(Trail(tag), k))
  {
    var t := StyleTags(tag, href);
    CloseTagPasses(k, Named(t));
    if tag.Pre? {
      ClosesParagraph(InText(k + [Named(t)]), "</" + t + ">", k, Closing(tag, href));
    } else {
      assert Glyphs("", k) == [];
    }
  }

  lemma ClosingPasses(tag: Tag, href: Option<string>, k: seq<Mark>)
    ensures Passes(InText(k + Tags(tag, href)), Closing(tag, href), InText(k), Glyphs(Trail(tag), k))
  {
    if IsStyle(tag) {
      StyleCloses(tag, href, k);
    } else if IsHeading(tag) {
      HeadingText(tag, href);
      HeadingCloses(k);
      ClosesParagraph(InText(k + [Named("big"), Named("b")]), "</b></big>", k, Closing(tag, href));
    } else if IsLink(tag, href) {
      CloseTagPasses(k, Link(href.value));
      assert "</" + "a" + ">" == "</a>";
      assert Glyphs("", k) == [];
    } else {
      BareText(tag, href);
      RawPasses(k, Trail(tag));
      assert k + [] == k;
    }
  }

  lemma GlyphsConcat(a: string, b: string, k: seq<Mark>)
    ensures Glyphs(a, k) + Glyphs(b, k) == Glyphs(a + b, k)
  {
  }

  lemma ImagePasses(alt: Option<string>, k: seq<Mark>)
    ensures Passes(InText(k), Bracketed(alt, true), InText(k), Glyphs(Bracketed(alt, false), k))
  {
    if alt.Some? && alt.value != "" {
      AltPasses(alt.value, k);
    } else {
      assert Glyphs("", k) == [];
    }
  }

  lemma AltPasses(alt: string, k: seq<Mark>)
    ensures Passes(InText(k), "[" + Escape(alt) + "]", InText(k), Glyphs("[" + alt + "]", k))
  {
    EscapePasses(k, "", alt);
    RawPasses(k, "[");
    RawPasses(k, "]");
    PassesConcat(InText(k), "[", InText(k), Glyphs("[", k), Escape(alt), InText(k), Glyphs(alt, k));
    GlyphsConcat("[", alt, k);
    PassesConcat(InText(k), "[" + Escape(alt), InText(k), Glyphs("[" + alt, k), "]", InText(k), Glyphs("]", k));
    GlyphsConcat("[" + alt, "]", k);
  }

  /** An element whose content passes, passes. */
  lemma ElementPasses(tag: Tag, href: Option<string>, inner: string, shown: seq<Item>, k: seq<Mark>)
    requires Passes(InText(k + Tags(tag, href)), inner, InText(k + Tags(tag, href)), shown)
    ensures Passes(InText(k), Opening(tag, href) + inner + Closing(tag, href), InText(k),
                   Starts(tag, href, k) + shown + Glyphs(Trail(tag), k))
  {
    var inside := InText(k + Tags(tag, href));
    OpeningPasses(tag, href, k);
    ClosingPasses(tag, href, k);
    PassesConcat(InText(k), Opening(tag, href), inside, Starts(tag, href, k), inner, inside, shown);
    PassesConcat(InText(k), Opening(tag, href) + inner, inside, Starts(tag, href, k) + shown, Closing(tag, href),
                 InText(k), Glyphs(Trail(tag), k));
  }

  // ----- Every tree -------------------------------------------------------

  /** Whatever the tree and wherever it stands: its markup leaves the scanner in text with the same
      elements open, and shows exactly the tree's text in its styles and its links. */
  lemma {:induction false} RenderedPasses(n: Node, k: seq<Mark>)
    ensures Passes(InText(k), Rendered(n), InText(k), Styled(n, k))
    decreases n, 0
  {
    match n
    case Text(text) => EscapePasses(k, "", text);
    case Other =>
    case Element(tag, href, alt, children) =>
      if tag.Br? {
        RawPasses(k, "\n");
      } else if tag.Img? {
        ImagePasses(alt, k);
      } else {
        RenderedAllPasses(children, k + Tags(tag, href));
        ElementPasses(tag, href, RenderedAll(children), StyledAll(children, k + Tags(tag, href)), k);
      }
  }

  lemma {:induction false} RenderedAllPasses(ns: seq<Node>, k: seq<Mark>)
    ensures Passes(InText(k), RenderedAll(ns), InText(k), StyledAll(ns, k))
    decreases ns, 0
  {
    if ns != [] {
      var n := |ns| - 1;
      RenderedAllPasses(ns[..n], k);
      RenderedPasses(ns[n], k);
      PassesConcat(InText(k), RenderedAll(ns[..n]), InText(k), StyledAll(ns[..n], k), Rendered(ns[n]), InText(k),
                   Styled(ns[n], k));
    }
  }

  // ----- Trimming ---------------------------------------------------------

  function TrimStart(s: string): string {
    if s != [] && IsWhitespace(s[0]) then TrimStart(s[1..]) else s
  }

  function TrimEnd(s: string): string {
    if s != [] && IsWhitespace(s[|s| - 1]) then TrimEnd(s[..|s| - 1]) else s
  }

  /** Rust's str::trim. */
  function Trim(s: string): string {
    TrimEnd(TrimStart(s))
  }

  lemma SpaceStays(k: seq<Mark>, c: char)
    requires IsWhitespace(c)
    ensures Step(InText(k), c) == InText(k) && Emit(InText(k), c) == [Glyph(c, k)]
  {
  }

  /** Only text accepts white space and stays text, so white space can end only in text. */
  lemma SpaceCameFromText(st: Scan, c: char, k: seq<Mark>)
    requires IsWhitespace(c) && Step(st, c) == InText(k)
    ensures st == InText(k)
  {
  }

  /** White space in no element. */
  predicate BlankItems(items: seq<Item>) {
    forall i :: 0 <= i < |items| ==> items[i].Glyph? && IsWhitespace(items[i].ch) && items[i].marks == []
  }

  lemma {:induction false} TrimStartPasses(s: string) returns (cut: seq<Item>)
    requires WellFormed(s)
    ensures WellFormed(TrimStart(s)) && BlankItems(cut) && ItemsOf(s) == cut + ItemsOf(TrimStart(s))
  {
    if s != [] && IsWhitespace(s[0]) {
      SpaceStays([], s[0]);
      var rest := TrimStartPasses(s[1..]);
      cut := [Glyph(s[0], [])] + rest;
    } else {
      cut := [];
    }
  }

  lemma {:induction false} ScannedSnoc(st: Scan, s: string, c: char)
    ensures Scanned(st, s + [c]) == Step(Scanned(st, s), c)
    ensures Shown(st, s + [c]) == Shown(st, s) + Emit(Scanned(st, s), c)
    decreases |s|
  {
    PassesOne(Scanned(st, s), c);
    PassesConcat(st, s, Scanned(st, s), Shown(st, s), [c], Step(Scanned(st, s), c), Emit(Scanned(st, s), c));
  }

  lemma {:induction false} TrimEndPasses(s: string) returns (cut: seq<Item>)
    requires WellFormed(s)
    ensures WellFormed(TrimEnd(s)) && BlankItems(cut) && ItemsOf(s) == ItemsOf(TrimEnd(s)) + cut
  {
    if s != [] && IsWhitespace(s[|s| - 1]) {
      var init, c := s[..|s| - 1], s[|s| - 1];
      assert s == init + [c];
      ScannedSnoc(OUTSIDE, init, c);
      SpaceCameFromText(Scanned(OUTSIDE, init), c, []);
      SpaceStays([], c);
      var rest := TrimEndPasses(init);
      cut := rest + [Glyph(c, [])];
    } else {
      cut := [];
    }
  }

  predicate Bounded(s: string) {
    s != [] ==> !IsWhitespace(s[0]) && !IsWhitespace(s[|s| - 1])
  }

  lemma {:induction false} TrimEndBounds(s: string)
    requires s != [] ==> !IsWhitespace(s[0])
    ensures Bounded(TrimEnd(s))
  {
    if s != [] && IsWhitespace(s[|s| - 1]) {
      TrimEndBounds(s[..|s| - 1]);
    }
  }

  lemma {:induction false} TrimStartBounds(s: string)
    ensures TrimStart(s) != [] ==> !IsWhitespace(TrimStart(s)[0])
  {
    if s != [] && IsWhitespace(s[0]) {
      TrimStartBounds(s[1..]);
    }
  }

  /** Trimming leaves no white space at either end. */
  lemma TrimBounds(s: string)
    ensures Bounded(Trim(s))
  {
    TrimStartBounds(s);
    TrimEndBounds(TrimStart(s));
  }

  // ----- Collapsing blank lines -------------------------------------------

  /** What collapse_blank_lines makes of `s` when `newlines` newlines came directly before. */
  function Squeezed(s: string, newlines: nat): string {
    if s == [] then []
    else if s[0] == '\n' then (if newlines < 2 then "\n" else "") + Squeezed(s[1..], newlines + 1)
    else [s[0]] + Squeezed(s[1..], 0)
  }

  function Newlines(k: nat): string {
    seq(k, _ => '\n')
  }

  lemma Regroup(a: string, b: string, c: string)
    ensures a + (b + c) == a + b + c
  {
  }

  lemma OneMoreNewline(k: nat)
    ensures "\n" + Newlines(k) == Newlines(k + 1)
  {
  }

  lemma NewlineSqueezed(rest: string, newlines: nat)
    ensures Squeezed("\n" + rest, newlines) == (if newlines < 2 then "\n" else "") + Squeezed(rest, newlines + 1)
  {
    assert ("\n" + rest)[1..] == rest;
  }

  /** How many newlines of a run of k stay after `newlines` others. */
  function Kept(k: nat, newlines: nat): nat {
    if newlines >= 2 then 0 else if k + newlines <= 2 then k else 2 - newlines
  }

  lemma {:induction false} RunSqueezed(k: nat, rest: string, newlines: nat)
    requires rest == [] || rest[0] != '\n'
    ensures Squeezed(Newlines(k) + rest, newlines) == Newlines(Kept(k, newlines)) + Squeezed(rest, 0)
    decreases k
  {
    if k == 0 {
      assert Newlines(0) + rest == rest;
      assert Squeezed(rest, newlines) == Squeezed(rest, 0);
      assert Newlines(0) + Squeezed(rest, 0) == Squeezed(rest, 0);
    } else {
      OneMoreNewline(k - 1);
      Regroup("\n", Newlines(k - 1), rest);
      NewlineSqueezed(Newlines(k - 1) + rest, newlines);
      RunSqueezed(k - 1, rest, newlines + 1);
      var after := Kept(k - 1, newlines + 1);
      if newlines < 2 {
        OneMoreNewline(after);
        Regroup("\n", Newlines(after), Squeezed(rest, 0));
      }
    }
  }

  /** Each maximal run of k newlines becomes min(k, 2) newlines. */
  lemma SqueezeMeans(k: nat, rest: string)
    requires rest == [] || rest[0] != '\n'
    ensures Squeezed(Newlines(k) + rest, 0) == Newlines(if k <= 2 then k else 2) + Squeezed(rest, 0)
  {
    RunSqueezed(k, rest, 0);
  }

  /** Any other character stays, whatever follows it, and ends the run before it. */
  lemma SqueezeKeeps(c: char, rest: string, newlines: nat)
    requires c != '\n'
    ensures Squeezed([c] + rest, newlines) == [c] + Squeezed(rest, 0)
  {
    assert ([c] + rest)[1..] == rest;
  }

  /** At most `budget` newlines at the front and never three in a row. */
  predicate NoTriple(s: string, newlines: nat) {
    s == [] || if s[0] == '\n' then newlines < 2 && NoTriple(s[1..], newlines + 1) else NoTriple(s[1..], 0)
  }

  lemma {:induction false} NoTripleMeans(s: string, newlines: nat, i: nat)
    requires NoTriple(s, newlines) && i + 2 < |s|
    ensures !(s[i] == '\n' && s[i + 1] == '\n' && s[i + 2] == '\n')
    decreases |s|
  {
    if i > 0 {
      NoTripleMeans(s[1..], if s[0] == '\n' then newlines + 1 else 0, i - 1);
    } else if s[0] == '\n' && s[1] == '\n' {
      assert s[1..][0] == s[1];
      assert NoTriple(s[1..][1..], newlines + 2);
      assert s[1..][1..][0] == s[2];
    }
  }

  lemma {:induction false} SqueezedHasNoTriple(s: string, newlines: nat)
    ensures NoTriple(Squeezed(s, newlines), if newlines <= 2 then newlines else 2)
    decreases |s|
  {
    if s != [] {
      SqueezedHasNoTriple(s[1..], if s[0] == '\n' then newlines + 1 else 0);
      if s[0] == '\n' && newlines < 2 {
        assert Squeezed(s, newlines)[1..] == Squeezed(s[1..], newlines + 1);
      } else if s[0] != '\n' {
        assert Squeezed(s, newlines)[1..] == Squeezed(s[1..], 0);
      } else {
        assert Squeezed(s, newlines) == Squeezed(s[1..], newlines + 1);
      }
    }
  }

  lemma {:induction false} NoTripleIsFixed(s: string, newlines: nat)
    requires NoTriple(s, newlines)
    ensures Squeezed(s, newlines) == s
    decreases |s|
  {
    if s != [] {
      NoTripleIsFixed(s[1..], if s[0] == '\n' then newlines + 1 else 0);
    }
  }

  /** Never three newlines in a row afterwards, and collapsing again changes nothing. */
  lemma SqueezeSettles(s: string)
    ensures forall i :: 0 <= i && i + 2 < |Squeezed(s, 0)| ==>
              !(Squeezed(s, 0)[i] == '\n' && Squeezed(s, 0)[i + 1] == '\n' && Squeezed(s, 0)[i + 2] == '\n')
    ensures Squeezed(Squeezed(s, 0), 0) == Squeezed(s, 0)
  {
    SqueezedHasNoTriple(s, 0);
    NoTripleIsFixed(Squeezed(s, 0), 0);
    forall i | 0 <= i && i + 2 < |Squeezed(s, 0)|
      ensures !(Squeezed(s, 0)[i] == '\n' && Squeezed(s, 0)[i + 1] == '\n' && Squeezed(s, 0)[i + 2] == '\n')
    {
      NoTripleMeans(Squeezed(s, 0), 0, i);
    }
  }

  // ----- Collapsing what a link's target holds ----------------------------

  /** How many newlines `s` ends with. */
  function Ending(s: string): nat {
    if s == [] || s[|s| - 1] != '\n' then 0 else Ending(s[..|s| - 1]) + 1
  }

  lemma {:induction false} SqueezedAppend(s: string, c: char, newlines: nat)
    ensures var run := Ending(s) + if Ending(s) == |s| then newlines else 0;
            Squeezed(s + [c], newlines) == Squeezed(s, newlines) + if c != '\n' || run < 2 then [c] else []
    decreases |s|
  {
    var all := s + [c];
    if s == [] {
      assert all == [c] && all[1..] == [];
    } else {
      assert all[1..] == s[1..] + [c];
      SqueezedAppend(s[1..], c, if s[0] == '\n' then newlines + 1 else 0);
      EndingTail(s);
      var piece := if s[0] != '\n' then [s[0]] else if newlines < 2 then "\n" else "";
      var next := if s[0] == '\n' then newlines + 1 else 0;
      Regroup(piece, Squeezed(s[1..], next), Squeezed(all[1..], next)[|Squeezed(s[1..], next)|..]);
    }
  }

  lemma {:induction false} EndingTail(s: string)
    requires s != []
    ensures Ending(s) <= |s|
    ensures Ending(s) == |s| <==> s[0] == '\n' && Ending(s[1..]) == |s| - 1
    ensures Ending(s) < |s| ==> Ending(s[1..]) == Ending(s)
  {
    if |s| > 1 && s[|s| - 1] == '\n' {
      EndingTail(s[..|s| - 1]);
      assert s[1..][..|s| - 2] == s[..|s| - 1][1..];
    }
  }

  /** A target, a mark, a list of marks, an item after collapsing. */
  function ThinTarget(target: string): string {
    Squeezed(target, 0)
  }

  function ThinMark(m: Mark): Mark {
    if m.Link? then Link(ThinTarget(m.target)) else m
  }

  function ThinMarks(k: seq<Mark>): (r: seq<Mark>)
    ensures |r| == |k|
  {
    seq(|k|, i requires 0 <= i < |k| => ThinMark(k[i]))
  }

  function ThinItem(x: Item): Item {
    match x
    case Glyph(c, k) => Glyph(c, ThinMarks(k))
    case Opens(target) => Opens(ThinTarget(target))
  }

  /** `b` is `a` with some newlines of the text left out, runs of newlines in link targets collapsed, and everything
      else in place. */
  predicate Thinned(a: seq<Item>, b: seq<Item>)
    decreases |a|
  {
    if a == [] then b == []
    else
      || (b != [] && ThinItem(a[0]) == b[0] && Thinned(a[1..], b[1..]))
      || (a[0].Glyph? && a[0].ch == '\n' && Thinned(a[1..], b))
  }

  /** Where the scanner of the collapsed markup stands when the scanner of the markup stands at `st` and `newlines`
      newlines came directly before. */
  predicate Follows(st: Scan, st': Scan, newlines: nat) {
    match st
    case InText(k) => st' == InText(ThinMarks(k))
    case InEntity(k, name) => st' == InEntity(ThinMarks(k), name)
    case InTag(k, body) => st' == InTag(ThinMarks(k), body)
    case InHref(k, target) => st' == InHref(ThinMarks(k), ThinTarget(target)) && newlines == Ending(target)
    case InHrefEntity(k, target, name) => st' == InHrefEntity(ThinMarks(k), ThinTarget(target), name)
    case AfterHref(k, target) => st' == AfterHref(ThinMarks(k), ThinTarget(target))
    case Bad => false
  }

  lemma ThinSnoc(k: seq<Mark>, m: Mark)
    ensures ThinMarks(k + [m]) == ThinMarks(k) + [ThinMark(m)]
  {
  }

  lemma EndTagFollows(k: seq<Mark>, body: string)
    requires EndTag(k, body) != Bad
    ensures EndTag(k, body).InText? && EndTag(ThinMarks(k), body) == InText(ThinMarks(EndTag(k, body).stack))
  {
    if body in PLAIN_TAGS {
      ThinSnoc(k, Named(body));
    } else {
      assert ThinMarks(k)[..|k| - 1] == ThinMarks(k[..|k| - 1]);
    }
  }

  lemma TargetGrows(target: string, c: char)
    ensures Ending(target + [c]) == if c == '\n' then Ending(target) + 1 else 0
    ensures ThinTarget(target + [c]) == ThinTarget(target) + if c != '\n' || Ending(target) < 2 then [c] else []
  {
    assert (target + [c])[..|target|] == target;
    SqueezedAppend(target, c, 0);
  }

  /** A character that stays: both scanners take it. */
  lemma StepFollows(st: Scan, st': Scan, newlines: nat, c: char)
    requires Follows(st, st', newlines) && Step(st, c) != Bad && (c == '\n' ==> newlines < 2)
    ensures Follows(Step(st, c), Step(st', c), if c == '\n' then newlines + 1 else 0)
    ensures |Emit(st, c)| == |Emit(st', c)| <= 1
    ensures Emit(st, c) != [] ==> Emit(st', c)[0] == ThinItem(Emit(st, c)[0])
  {
    match st
    case InTag(k, body) => if c == '>' { EndTagFollows(k, body); }
    case InHref(k, target) => TargetGrows(target, c);
    case InHrefEntity(k, target, name) =>
      if c == ';' {
        TargetGrows(target, Decode(name).value);
      }
    case AfterHref(k, target) => ThinSnoc(k, Link(target));
    case _ =>
  }

  /** A newline that goes: the scanner of the collapsed markup stays. */
  lemma DropFollows(st: Scan, st': Scan, newlines: nat)
    requires Follows(st, st', newlines) && Step(st, '\n') != Bad && newlines >= 2
    ensures Follows(Step(st, '\n'), st', newlines + 1)
    ensures Emit(st, '\n') == [] || (|Emit(st, '\n')| == 1 && Emit(st, '\n')[0].Glyph? && Emit(st, '\n')[0].ch == '\n')
  {
    if st.InHref? {
      TargetGrows(st.target, '\n');
    }
  }

  lemma {:induction false} BadStaysBad(s: string)
    ensures Scanned(Bad, s) == Bad
  {
    if s != [] {
      BadStaysBad(s[1..]);
    }
  }

  lemma ThinnedOne(x: seq<Item>, x': seq<Item>, a: seq<Item>, b: seq<Item>)
    requires Thinned(a, b) && |x| == |x'| <= 1 && (x != [] ==> x'[0] == ThinItem(x[0]))
    ensures Thinned(x + a, x' + b)
  {
    if x == [] {
      assert x + a == a && x' + b == b;
    } else {
      assert (x + a)[1..] == a && (x' + b)[1..] == b;
    }
  }

  lemma ThinnedDrop(x: seq<Item>, a: seq<Item>, b: seq<Item>)
    requires Thinned(a, b) && (x == [] || (|x| == 1 && x[0].Glyph? && x[0].ch == '\n'))
    ensures Thinned(x + a, b)
  {
    if x == [] {
      assert x + a == a;
    } else {
      assert (x + a)[1..] == a;
    }
  }

  /** The two scanners over the first character and the rest, where the rest is squeezed as `less`. */
  lemma SqueezeHead(st: Scan, st': Scan, s: string, newlines: nat, less: string)
    requires s != [] && Follows(st, st', newlines) && Step(st, s[0]) != Bad
    requires less == Squeezed(s[1..], if s[0] == '\n' then newlines + 1 else 0)
    requires var after := if s[0] == '\n' && newlines >= 2 then st' else Step(st', s[0]);
             Scanned(after, less) == OUTSIDE && Thinned(Shown(Step(st, s[0]), s[1..]), Shown(after, less))
    ensures Scanned(st', Squeezed(s, newlines)) == OUTSIDE
    ensures Thinned(Shown(st, s), Shown(st', Squeezed(s, newlines)))
  {
    var c := s[0];
    if c == '\n' && newlines >= 2 {
      DropFollows(st, st', newlines);
      assert Squeezed(s, newlines) == less;
      ThinnedDrop(Emit(st, c), Shown(Step(st, c), s[1..]), Shown(st', less));
    } else {
      StepFollows(st, st', newlines, c);
      var out := Squeezed(s, newlines);
      assert out[0] == c && out[1..] == less;
      ThinnedOne(Emit(st, c), Emit(st', c), Shown(Step(st, c), s[1..]), Shown(Step(st', c), less));
    }
  }

  lemma {:induction false} SqueezePasses(st: Scan, st': Scan, s: string, newlines: nat)
    requires Follows(st, st', newlines) && Scanned(st, s) == OUTSIDE
    ensures Scanned(st', Squeezed(s, newlines)) == OUTSIDE
    ensures Thinned(Shown(st, s), Shown(st', Squeezed(s, newlines)))
    decreases |s|
  {
    if s == [] {
      assert ThinMarks([]) == [];
    } else {
      var c, rest := s[0], s[1..];
      var next := if c == '\n' then newlines + 1 else 0;
      BadStaysBad(rest);
      if c == '\n' && newlines >= 2 {
        DropFollows(st, st', newlines);
        SqueezePasses(Step(st, c), st', rest, next);
      } else {
        StepFollows(st, st', newlines, c);
        SqueezePasses(Step(st, c), Step(st', c), rest, next);
      }
      SqueezeHead(st, st', s, newlines, Squeezed(rest, next));
    }
  }

  function ThinTargets(targets: seq<string>): seq<string> {
    seq(|targets|, i requires 0 <= i < |targets| => ThinTarget(targets[i]))
  }

  lemma FrontTargets(a: seq<Item>)
    requires a != []
    ensures TargetsOf(a) == TargetOf(a[0]) + TargetsOf(a[1..])
  {
    assert a == [a[0]] + a[1..] && [a[0]][..0] == [];
    TargetsConcat([a[0]], a[1..]);
    assert TargetsOf([a[0]]) == [] + TargetOf(a[0]) == TargetOf(a[0]);
  }

  lemma ThinTargetsConcat(a: seq<string>, b: seq<string>)
    ensures ThinTargets(a + b) == ThinTargets(a) + ThinTargets(b)
  {
  }

  /** No link is dropped or added, and each target only has its runs of newlines collapsed. */
  lemma {:induction false} ThinnedKeepsLinks(a: seq<Item>, b: seq<Item>)
    requires Thinned(a, b)
    ensures TargetsOf(b) == ThinTargets(TargetsOf(a))
    decreases |a|
  {
    if a != [] {
      FrontTargets(a);
      ThinTargetsConcat(TargetOf(a[0]), TargetsOf(a[1..]));
      if b != [] && ThinItem(a[0]) == b[0] && Thinned(a[1..], b[1..]) {
        FrontTargets(b);
        ThinnedKeepsLinks(a[1..], b[1..]);
        assert TargetOf(b[0]) == ThinTargets(TargetOf(a[0]));
      } else {
        ThinnedKeepsLinks(a[1..], b);
        assert [] + ThinTargets(TargetsOf(a[1..])) == ThinTargets(TargetsOf(a[1..]));
      }
    }
  }

  // ----- The whole conversion ---------------------------------------------

  function Pango(ns: seq<Node>): string {
    Squeezed(Trim(RenderedAll(ns)), 0)
  }

  predicate NoBlankLines(s: string) {
    forall i :: 0 <= i && i + 2 < |s| ==> !(s[i] == '\n' && s[i + 1] == '\n' && s[i + 2] == '\n')
  }

  /** Collapsing takes nothing from the ends of a trimmed text. */
  lemma SqueezedBounds(s: string)
    requires Bounded(s)
    ensures Bounded(Squeezed(s, 0))
  {
    if s != [] {
      var n := |s| - 1;
      assert s == s[..n] + [s[n]];
      SqueezedAppend(s[..n], s[n], 0);
      assert Squeezed(s, 0)[0] == s[0];
    }
  }

  /** For every document the final string is well-formed markup without three newlines in a row and without white
      space at its ends, and what it shows is the document's text in its styles and its links, but for white space cut
      off at the two ends and newlines left out. */
  lemma PangoIsFaithful(ns: seq<Node>) returns (front: seq<Item>, kept: seq<Item>, back: seq<Item>)
    ensures WellFormed(Pango(ns)) && NoBlankLines(Pango(ns)) && Bounded(Pango(ns))
    ensures StyledAll(ns, []) == front + kept + back && BlankItems(front) && BlankItems(back)
    ensures Thinned(kept, ItemsOf(Pango(ns)))
  {
    RenderedAllPasses(ns, []);
    var raw := RenderedAll(ns);
    front := TrimStartPasses(raw);
    back := TrimEndPasses(TrimStart(raw));
    kept := ItemsOf(Trim(raw));
    assert StyledAll(ns, []) == front + (kept + back) == front + kept + back;
    assert ThinMarks([]) == [];
    SqueezePasses(OUTSIDE, OUTSIDE, Trim(raw), 0);
    SqueezeSettles(Trim(raw));
    TrimBounds(raw);
    SqueezedBounds(Trim(raw));
  }

  lemma {:induction false} BlankHasNoLinks(items: seq<Item>)
    requires BlankItems(items)
    ensures TargetsOf(items) == []
  {
    if items != [] {
      BlankHasNoLinks(items[..|items| - 1]);
    }
  }

  lemma LinksInTheMiddle(front: seq<Item>, kept: seq<Item>, back: seq<Item>)
    requires BlankItems(front) && BlankItems(back)
    ensures TargetsOf(front + kept + back) == TargetsOf(kept)
  {
    BlankHasNoLinks(front);
    BlankHasNoLinks(back);
    TargetsConcat(front + kept, back);
    TargetsConcat(front, kept);
    assert [] + TargetsOf(kept) + [] == TargetsOf(kept);
  }

  /** The links of the final string are the document's anchors, in order, with their targets; only runs of newlines
      inside a target are collapsed. */
  lemma PangoKeepsLinks(ns: seq<Node>)
    ensures TargetsOf(ItemsOf(Pango(ns))) == ThinTargets(HrefsAll(ns))
  {
    var front, kept, back := PangoIsFaithful(ns);
    StyledAllIsPlain(ns, []);
    LinksInTheMiddle(front, kept, back);
    ThinnedKeepsLinks(kept, ItemsOf(Pango(ns)));
  }

  lemma {:induction false} NoNewlineStays(s: string)
    requires '\n' !in s
    ensures ThinTarget(s) == s
  {
    if s != [] {
      NoNewlineStays(s[1..]);
    }
  }

  // ----- The printer ------------------------------------------------------

  lemma RenderedAllSnoc(start: string, ns: seq<Node>, i: nat)
    requires i < |ns|
    ensures start + RenderedAll(ns[..i + 1]) == start + RenderedAll(ns[..i]) + Rendered(ns[i])
  {
    assert ns[..i + 1][..i] == ns[..i];
  }

  /** The `String` the printer appends to. */
  class Buffer {
    var text: string

    constructor ()
      ensures text == ""
    {
      text := "";
    }

    method PushStr(s: string)
      modifies this
      ensures text == old(text) + s
    {
      text := text + s;
    }
  }

  method Render(n: Node, out: Buffer)
    modifies out
    ensures out.text == old(out.text) + Rendered(n)
    decreases n, 1
  {
    match n
    case Text(text) => out.PushStr(Escape(text));
    case Other =>
    case Element(tag, href, alt, children) => RenderElement(n, out);
  }

  method RenderElement(n: Node, out: Buffer)
    requires n.Element?
    modifies out
    ensures out.text == old(out.text) + Rendered(n)
    decreases n, 0
  {
    match n.tag
    case Br => out.PushStr("\n");
    case P | Div | Section | Article | Blockquote => Wrap(n, out, "", "\n\n");
    case B | Strong => Wrap(n, out, "<b>", "</b>");
    case I | Em => Wrap(n, out, "<i>", "</i>");
    case U => Wrap(n, out, "<u>", "</u>");
    case S | Del | Strike => Wrap(n, out, "<s>", "</s>");
    case Code | Tt | Kbd | Samp => Wrap(n, out, "<tt>", "</tt>");
    case Pre => Wrap(n, out, "<tt>", "</tt>\n\n");
    case H1 | H2 | H3 | H4 | H5 | H6 => Wrap(n, out, "<big><b>", "</b></big>\n\n");
    case Li => Wrap(n, out, "\U{2022} ", "\n");
    case Ul | Ol => Wrap(n, out, "", "\n");
    case A =>
      if n.href.Some? {
        Wrap(n, out, "<a href=\"" + Escape(n.href.value) + "\">", "</a>");
      } else {
        Wrap(n, out, "", "");
      }
    case Img =>
      if n.alt.Some? && n.alt.value != "" {
        out.PushStr("[" + Escape(n.alt.value) + "]");
      }
    case Unknown(_) => Wrap(n, out, "", "");
  }

  lemma Around(before: string, open: string, inner: string, close: string)
    ensures before + open + inner + close == before + (open + inner + close)
  {
  }

  method Wrap(n: Node, out: Buffer, open: string, close: string)
    requires n.Element?
    modifies out
    ensures out.text == old(out.text) + (open + RenderedAll(n.children) + close)
    decreases n.children, 3
  {
    ghost var inner := RenderedAll(n.children);
    out.PushStr(open);
    RenderChildren(n.children, out);
    assert out.text == old(out.text) + open + inner;
    out.PushStr(close);
    Around(old(out.text), open, inner, close);
  }

  method RenderChildren(children: seq<Node>, out: Buffer)
    modifies out
    ensures out.text == old(out.text) + RenderedAll(children)
    decreases children, 2
  {
    for i := 0 to |children|
      invariant out.text == old(out.text) + RenderedAll(children[..i])
    {
      RenderedAllSnoc(old(out.text), children, i);
      Render(children[i], out);
    }
    assert children[..|children|] == children;
  }

  lemma SqueezeStep(out: string, s: string, i: nat, newlines: nat)
    requires i < |s|
    ensures s[i] == '\n' && newlines < 2 ==>
              out + Squeezed(s[i..], newlines) == out + [s[i]] + Squeezed(s[i + 1..], newlines + 1)
    ensures s[i] == '\n' && newlines >= 2 ==>
              out + Squeezed(s[i..], newlines) == out + Squeezed(s[i + 1..], newlines + 1)
    ensures s[i] != '\n' ==> out + Squeezed(s[i..], newlines) == out + [s[i]] + Squeezed(s[i + 1..], 0)
  {
    var rest := s[i + 1..];
    assert s[i..][0] == s[i] && s[i..][1..] == rest;
    Regroup(out, [s[i]], Squeezed(rest, if s[i] == '\n' then newlines + 1 else 0));
  }

  method CollapseBlankLines(s: string) returns (out: string)
    ensures out == Squeezed(s, 0)
  {
    out := "";
    var newlines := 0;
    assert s[0..] == s;
    for i := 0 to |s|
      invariant newlines >= 0
      invariant out + Squeezed(s[i..], newlines) == Squeezed(s, 0)
    {
      SqueezeStep(out, s, i, newlines);
      var ch := s[i];
      if ch == '\n' {
        newlines := newlines + 1;
        if newlines <= 2 {
          out := out + [ch];
        }
      } else {
        newlines := 0;
        out := out + [ch];
      }
    }
    assert s[|s|..] == "";
  }

  /** html_to_pango, from the sanitized and parsed document on. */
  method HtmlToPango(root: seq<Node>) returns (out: string)
    ensures out == Pango(root)
    ensures WellFormed(out)
  {
    var buffer := new Buffer();
    RenderChildren(root, buffer);
    assert buffer.text == RenderedAll(root);
    out := CollapseBlankLines(Trim(buffer.text));
    ghost var _, _, _ := PangoIsFaithful(root);
  }
}
