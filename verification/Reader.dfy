/** The light reader, linux/fodder/src/reader.rs: a sanitized DOM is printed as Pango markup. */
module Reader {
  import opened Wrappers

  /** Element names; `Unknown` are all the names the printer has no arm for. */
  datatype Tag =
    | Br | P | Div | Section | Article | Blockquote
    | B | Strong | I | Em | U | S | Del | Strike
    | Code | Tt | Kbd | Samp | Pre
    | H1 | H2 | H3 | H4 | H5 | H6
    | Li | Ul | Ol | A | Img
    | Unknown(name: string)

  /** `href` and `alt` are the two attributes the printer looks at. */
  datatype Node =
    | Text(text: string)
    | Element(tag: Tag, href: Option<string>, alt: Option<string>, children: seq<Node>)
    | Other

  // ----- Escaping (g_markup_escape_text) ----------------------------------

  function HexDigit(n: nat): char
    requires n < 16
  {
    if n < 10 then '0' + n as char else 'a' + (n - 10) as char
  }

  predicate IsControl(c: char) {
    var n := c as int;
    || 0x1 <= n <= 0x8 || 0xb <= n <= 0xc || 0xe <= n <= 0x1f || 0x7f <= n <= 0x84 || 0x86 <= n <= 0x9f
  }

  /** All of the two control blocks but tab, line feed, carriage return and next line. */
  lemma ControlsAre(c: char)
    ensures IsControl(c) <==>
            (1 <= c as int <= 31 || 127 <= c as int <= 159) && c !in {'\t', '\n', '\r', '\U{85}'}
  {
  }

  function Hex(n: nat): string
    requires n < 256
  {
    if n < 16 then [HexDigit(n)] else [HexDigit(n / 16), HexDigit(n % 16)]
  }

  function EntityName(c: char): Option<string> {
    if c == '&' then Some("amp")
    else if c == '<' then Some("lt")
    else if c == '>' then Some("gt")
    else if c == '\'' then Some("apos")
    else if c == '\"' then Some("quot")
    else if IsControl(c) then Some("#x" + Hex(c as int))
    else None
  }

  function EscapeChar(c: char): string {
    match EntityName(c)
    case Some(name) => "&" + name + ";"
    case None => [c]
  }

  function Escape(s: string): string {
    if s == [] then [] else EscapeChar(s[0]) + Escape(s[1..])
  }

  // ----- What is printed --------------------------------------------------

  predicate IsHeading(tag: Tag) {
    tag.H1? || tag.H2? || tag.H3? || tag.H4? || tag.H5? || tag.H6?
  }

  /** What stands before an element's content in the markup. */
  function Opening(tag: Tag, href: Option<string>): string {
    match tag
    case B | Strong => "<b>"
    case I | Em => "<i>"
    case U => "<u>"
    case S | Del | Strike => "<s>"
    case Code | Tt | Kbd | Samp | Pre => "<tt>"
    case H1 | H2 | H3 | H4 | H5 | H6 => "<big><b>"
    case Li => "\U{2022} "
    case A => if href.Some? then "<a href=\"" + Escape(href.value) + "\">" else ""
    case _ => ""
  }

  /** What stands after it. */
  function Closing(tag: Tag, href: Option<string>): string {
    match tag
    case P | Div | Section | Article | Blockquote => "\n\n"
    case B | Strong => "</b>"
    case I | Em => "</i>"
    case U => "</u>"
    case S | Del | Strike => "</s>"
    case Code | Tt | Kbd | Samp => "</tt>"
    case Pre => "</tt>\n\n"
    case H1 | H2 | H3 | H4 | H5 | H6 => "</b></big>\n\n"
    case Li | Ul | Ol => "\n"
    case A => if href.Some? then "</a>" else ""
    case _ => ""
  }

  function Bracketed(alt: Option<string>, escaped: bool): string {
    if alt.None? || alt.value == "" then ""
    else "[" + (if escaped then Escape(alt.value) else alt.value) + "]"
  }

  function Rendered(n: Node): string
    decreases n, 0
  {
    match n
    case Text(text) => Escape(text)
    case Other => ""
    case Element(tag, href, alt, children) =>
      if tag.Br? then "\n"
      else if tag.Img? then Bracketed(alt, true)
      else
        Opening(tag, href) + RenderedAll(children) + Closing(tag, href)
  }

  function RenderedAll(ns: seq<Node>): string
    decreases ns, 0
  {
    if ns == [] then "" else RenderedAll(ns[..|ns| - 1]) + Rendered(ns[|ns| - 1])
  }

  // ----- The plain text a document stands for -----------------------------

  /** Text an element adds before its content, and the line ends it adds after. */
  function Lead(tag: Tag): string {
    if tag.Li? then "\U{2022} " else ""
  }

  function Trail(tag: Tag): string {
    if tag.P? || tag.Div? || tag.Section? || tag.Article? || tag.Blockquote? || tag.Pre? || IsHeading(tag) then "\n\n"
    else if tag.Li? || tag.Ul? || tag.Ol? then "\n"
    else ""
  }

  function Plain(n: Node): string
    decreases n, 0
  {
    match n
    case Text(text) => text
    case Other => ""
    case Element(tag, _, alt, children) =>
      if tag.Br? then "\n"
      else if tag.Img? then Bracketed(alt, false)
      else Lead(tag) + PlainAll(children) + Trail(tag)
  }

  function PlainAll(ns: seq<Node>): string
    decreases ns, 0
  {
    if ns == [] then "" else PlainAll(ns[..|ns| - 1]) + Plain(ns[|ns| - 1])
  }

  /** An image is shown by its alternative text in brackets, and not at all without one. */
  lemma ImagesShowTheirAlt(href: Option<string>, alt: Option<string>, children: seq<Node>)
    ensures var shown := Plain(Element(Img, href, alt, children));
            && (alt.Some? && alt.value != "" ==>
                  |shown| == |alt.value| + 2 && shown[0] == '[' && shown[1..|shown| - 1] == alt.value
                  && shown[|shown| - 1] == ']')
            && (alt.None? || alt.value == "" ==> shown == "")
  {
  }

  // ----- A scanner for the markup -----------------------------------------

  /** An open element: by its name, or a link with the target its attribute stands for. */
  datatype Mark = Named(name: string) | Link(target: string)

  function NameOf(m: Mark): string {
    if m.Link? then "a" else m.name
  }

  /** What the reader of the markup gets: characters under the marks that are open there, and links as they open. */
  datatype Item = Glyph(ch: char, marks: seq<Mark>) | Opens(target: string)

  function Glyphs(s: string, marks: seq<Mark>): (items: seq<Item>)
    ensures |items| == |s|
  {
    seq(|s|, i requires 0 <= i < |s| => Glyph(s[i], marks))
  }

  /** The open elements, innermost last, and where in the syntax the scanner stands. */
  datatype Scan =
    | InText(stack: seq<Mark>)
    | InEntity(stack: seq<Mark>, name: string)
    | InTag(stack: seq<Mark>, body: string)
    | InHref(stack: seq<Mark>, target: string)
    | InHrefEntity(stack: seq<Mark>, target: string, name: string)
    | AfterHref(stack: seq<Mark>, target: string)
    | Bad

  function HexValue(c: char): Option<nat> {
    if '0' <= c <= '9' then Some((c - '0') as nat)
    else if 'a' <= c <= 'f' then Some((c - 'a') as nat + 10)
    else None
  }

  /** The character an entity or character reference stands for; none stands for a newline. */
  function Decode(name: string): Option<char> {
    var c := Referenced(name);
    if c == Some('\n') then None else c
  }

  function Referenced(name: string): Option<char> {
    if name == "amp" then Some('&')
    else if name == "lt" then Some('<')
    else if name == "gt" then Some('>')
    else if name == "apos" then Some('\'')
    else if name == "quot" then Some('\"')
    else if |name| == 3 && name[0] == '#' && name[1] == 'x' && HexValue(name[2]).Some? then
      Some(HexValue(name[2]).value as char)
    else if |name| == 4 && name[0] == '#' && name[1] == 'x' && HexValue(name[2]).Some? && HexValue(name[3]).Some? then
      Some((16 * HexValue(name[2]).value + HexValue(name[3]).value) as char)
    else None
  }

  predicate IsNameChar(c: char) {
    'a' <= c <= 'z' || '0' <= c <= '9' || c == '#'
  }

  const PLAIN_TAGS: set<string> := {"b", "i", "u", "s", "tt", "big"}

  function EndTag(stack: seq<Mark>, body: string): Scan {
    if body in PLAIN_TAGS then InText(stack + [Named(body)])
    else if body != "" && body[0] == '/' && stack != [] && NameOf(stack[|stack| - 1]) == body[1..]
    then InText(stack[..|stack| - 1])
    else Bad
  }

  function Step(st: Scan, c: char): Scan {
    match st
    case InText(k) =>
      if c == '<' then InTag(k, "") else if c == '&' then InEntity(k, "") else if c == '>' then Bad else st
    case InEntity(k, name) =>
      if c == ';' then (if Decode(name).Some? then InText(k) else Bad)
      else if IsNameChar(c) then InEntity(k, name + [c]) else Bad
    case InTag(k, body) =>
      if c == '>' then EndTag(k, body)
      else if c == '\"' && body == "a href=" then InHref(k, "")
      else if IsTagChar(c) then InTag(k, body + [c])
      else Bad
    case InHref(k, target) =>
      if c == '\"' then AfterHref(k, target) else if c == '&' then InHrefEntity(k, target, "")
      else if c == '<' || c == '>' then Bad else InHref(k, target + [c])
    case InHrefEntity(k, target, name) =>
      if c == ';' then (if Decode(name).Some? then InHref(k, target + [Decode(name).value]) else Bad)
      else if IsNameChar(c) then InHrefEntity(k, target, name + [c]) else Bad
    case AfterHref(k, target) => if c == '>' then InText(k + [Link(target)]) else Bad
    case Bad => Bad
  }

  /** What the reader of the markup sees at this character. */
  function Emit(st: Scan, c: char): seq<Item> {
    match st
    case InText(k) => if c == '<' || c == '&' || c == '>' then [] else [Glyph(c, k)]
    case InEntity(k, name) => if c == ';' && Decode(name).Some? then [Glyph(Decode(name).value, k)] else []
    case AfterHref(_, target) => if c == '>' then [Opens(target)] else []
    case _ => []
  }

  function Scanned(st: Scan, s: string): Scan
    decreases |s|, st
  {
    if s == [] then st else Scanned(Step(st, s[0]), s[1..])
  }

  function Shown(st: Scan, s: string): seq<Item>
    decreases |s|, st
  {
    if s == [] then [] else Emit(st, s[0]) + Shown(Step(st, s[0]), s[1..])
  }

  const OUTSIDE: Scan := InText([])

  predicate WellFormed(markup: string) {
    Scanned(OUTSIDE, markup) == OUTSIDE
  }

  function ItemsOf(markup: string): seq<Item> {
    Shown(OUTSIDE, markup)
  }

  predicate Passes(st: Scan, s: string, end: Scan, shown: seq<Item>) {
    Scanned(st, s) == end && Shown(st, s) == shown
  }

  lemma {:induction false} PassesConcat(st: Scan, a: string, mid: Scan, x: seq<Item>, b: string, end: Scan,
                                        y: seq<Item>)
    requires Passes(st, a, mid, x) && Passes(mid, b, end, y)
    ensures Passes(st, a + b, end, x + y)
    decreases |a|
  {
    if a == [] {
      assert a + b == b && x + y == y;
    } else {
      assert (a + b)[1..] == a[1..] + b;
      PassesConcat(Step(st, a[0]), a[1..], mid, Shown(Step(st, a[0]), a[1..]), b, end, y);
    }
  }

  /** The same where the first part shows nothing, or the second. */
  lemma PassesAfter(st: Scan, a: string, mid: Scan, b: string, end: Scan, y: seq<Item>)
    requires Passes(st, a, mid, []) && Passes(mid, b, end, y)
    ensures Passes(st, a + b, end, y)
  {
    PassesConcat(st, a, mid, [], b, end, y);
    assert [] + y == y;
  }

  lemma PassesOne(st: Scan, c: char)
    ensures Passes(st, [c], Step(st, c), Emit(st, c))
  {
    assert [c][1..] == [];
    assert Shown(st, [c]) == Emit(st, c) + [];
  }

  // ----- Tags and entities pass -------------------------------------------

  predicate IsTagChar(c: char) {
    IsNameChar(c) || c == '/' || c == ' ' || c == '='
  }

  lemma {:induction false} TagBodyPasses(k: seq<Mark>, body: string, rest: string)
    requires forall i :: 0 <= i < |rest| ==> IsTagChar(rest[i])
    ensures Passes(InTag(k, body), rest, InTag(k, body + rest), [])
    decreases |rest|
  {
    if rest == [] {
      assert body + rest == body;
    } else {
      TagBodyPasses(k, body + [rest[0]], rest[1..]);
      assert body + [rest[0]] + rest[1..] == body + rest;
    }
  }

  /** `<body>` takes the scanner where EndTag says. */
  lemma TagPasses(k: seq<Mark>, body: string)
    requires forall i :: 0 <= i < |body| ==> IsTagChar(body[i])
    ensures Passes(InText(k), "<" + body + ">", EndTag(k, body), [])
  {
    PassesOne(InText(k), '<');
    TagBodyPasses(k, "", body);
    assert "" + body == body;
    PassesAfter(InText(k), "<", InTag(k, ""), body, InTag(k, body), []);
    PassesOne(InTag(k, body), '>');
    PassesAfter(InText(k), "<" + body, InTag(k, body), ">", EndTag(k, body), []);
  }

  lemma {:induction false} EntityBodyPasses(k: seq<Mark>, target: string, name: string, rest: string)
    requires forall i :: 0 <= i < |rest| ==> IsNameChar(rest[i])
    ensures Passes(InEntity(k, name), rest, InEntity(k, name + rest), [])
    ensures Passes(InHrefEntity(k, target, name), rest, InHrefEntity(k, target, name + rest), [])
    decreases |rest|
  {
    if rest == [] {
      assert name + rest == name;
    } else {
      EntityBodyPasses(k, target, name + [rest[0]], rest[1..]);
      assert name + [rest[0]] + rest[1..] == name + rest;
    }
  }

  lemma HexRoundTrip(n: nat)
    requires n < 16
    ensures HexValue(HexDigit(n)) == Some(n) && IsNameChar(HexDigit(n))
  {
  }

  /** Every escape is an entity the scanner knows, and stands for the character that was escaped. */
  lemma EntityDecodes(c: char)
    requires EntityName(c).Some?
    ensures var name := EntityName(c).value;
            Decode(name) == Some(c) && forall i :: 0 <= i < |name| ==> IsNameChar(name[i])
  {
    if c !in {'&', '<', '>', '\'', '\"'} {
      var n := c as int;
      if n < 16 {
        HexRoundTrip(n);
      } else {
        HexRoundTrip(n / 16);
        HexRoundTrip(n % 16);
      }
    }
  }

  lemma EntityPasses(k: seq<Mark>, target: string, name: string)
    requires Decode(name).Some? && forall i :: 0 <= i < |name| ==> IsNameChar(name[i])
    ensures Passes(InText(k), "&" + name + ";", InText(k), [Glyph(Decode(name).value, k)])
    ensures Passes(InHref(k, target), "&" + name + ";", InHref(k, target + [Decode(name).value]), [])
  {
    EntityBodyPasses(k, target, "", name);
    assert "" + name == name;
    PassesOne(InText(k), '&');
    PassesAfter(InText(k), "&", InEntity(k, ""), name, InEntity(k, name), []);
    PassesOne(InEntity(k, name), ';');
    PassesAfter(InText(k), "&" + name, InEntity(k, name), ";", InText(k), [Glyph(Decode(name).value, k)]);
    PassesOne(InHref(k, target), '&');
    PassesAfter(InHref(k, target), "&", InHrefEntity(k, target, ""), name, InHrefEntity(k, target, name), []);
    PassesOne(InHrefEntity(k, target, name), ';');
    PassesAfter(InHref(k, target), "&" + name, InHrefEntity(k, target, name), ";",
                InHref(k, target + [Decode(name).value]), []);
  }

  lemma EscapeCharPasses(k: seq<Mark>, target: string, c: char)
    ensures Passes(InText(k), EscapeChar(c), InText(k), [Glyph(c, k)])
    ensures Passes(InHref(k, target), EscapeChar(c), InHref(k, target + [c]), [])
  {
    if EntityName(c).Some? {
      EntityDecodes(c);
      EntityPasses(k, target, EntityName(c).value);
    } else {
      PassesOne(InText(k), c);
      PassesOne(InHref(k, target), c);
    }
  }

  /** Escaped text is shown as the text it was, and as an attribute value stands for it. */
  lemma {:induction false} EscapePasses(k: seq<Mark>, target: string, s: string)
    ensures Passes(InText(k), Escape(s), InText(k), Glyphs(s, k))
    ensures Passes(InHref(k, target), Escape(s), InHref(k, target + s), [])
    decreases |s|
  {
    if s == [] {
      assert target + s == target;
    } else {
      EscapeCharPasses(k, target, s[0]);
      EscapePasses(k, target + [s[0]], s[1..]);
      PassesConcat(InText(k), EscapeChar(s[0]), InText(k), [Glyph(s[0], k)], Escape(s[1..]), InText(k),
                   Glyphs(s[1..], k));
      PassesAfter(InHref(k, target), EscapeChar(s[0]), InHref(k, target + [s[0]]), Escape(s[1..]),
                  InHref(k, target + [s[0]] + s[1..]), []);
      assert [Glyph(s[0], k)] + Glyphs(s[1..], k) == Glyphs(s, k);
      assert target + [s[0]] + s[1..] == target + s;
    }
  }

  lemma EscapeCharIsClean(c: char, i: nat)
    requires i < |EscapeChar(c)|
    ensures EscapeChar(c)[i] !in {'<', '>', '\'', '\"'} && !IsControl(EscapeChar(c)[i])
    ensures EscapeChar(c)[i] == '&' ==> i == 0 && EntityName(c).Some?
  {
    if EntityName(c).Some? {
      EntityDecodes(c);
      assert i > 0 && i < |EscapeChar(c)| - 1 ==> IsNameChar(EscapeChar(c)[i]);
    }
  }

  /** Nothing that means something in markup is left bare, nor any control character. */
  lemma {:induction false} EscapeIsClean(s: string, i: nat)
    requires i < |Escape(s)|
    ensures Escape(s)[i] !in {'<', '>', '\'', '\"'} && !IsControl(Escape(s)[i])
  {
    if i < |EscapeChar(s[0])| {
      EscapeCharIsClean(s[0], i);
    } else {
      EscapeIsClean(s[1..], i - |EscapeChar(s[0])|);
    }
  }

  /** Text without markup characters is shown as it is. */
  lemma {:induction false} RawPasses(k: seq<Mark>, s: string)
    requires '<' !in s && '>' !in s && '&' !in s
    ensures Passes(InText(k), s, InText(k), Glyphs(s, k))
  {
    if s != [] {
      RawPasses(k, s[1..]);
      assert [Glyph(s[0], k)] + Glyphs(s[1..], k) == Glyphs(s, k);
    }
  }
}
