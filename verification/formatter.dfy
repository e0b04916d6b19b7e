/** The markdown builders of the documentation tools: the page header and
    abstract, the content of a symbol page and of a collection page, platform
    availability, and the see-also, related, references, similar and platform
    analysis sections. Each builder appends pieces to a list and joins them;
    here each is the concatenation of its pieces. */
module Formatter {
  import opened Wrappers
  import opened PyStr
  import opened PySeq
  import opened Constants
  import opened ToolOutput
  import opened DocJson
  import opened Fetcher

  // ---------------------------------------------------------------------------
  // Concatenating one piece per element

  /** `"".join(f(x) for x in xs)`. */
  function ConcatMap<T>(xs: seq<T>, f: T -> string): string
    decreases |xs|
  {
    if xs == [] then "" else ConcatMap(xs[..|xs| - 1], f) + f(xs[|xs| - 1])
  }

  lemma ConcatMapStep<T>(xs: seq<T>, f: T -> string, j: nat)
    requires j < |xs|
    ensures ConcatMap(xs[..j + 1], f) == ConcatMap(xs[..j], f) + f(xs[j])
  {
    assert xs[..j + 1][..j] == xs[..j];
  }

  /** Concatenating over two runs is concatenating their results. */
  lemma {:induction false} ConcatMapAppend<T>(a: seq<T>, b: seq<T>, f: T -> string)
    ensures ConcatMap(a + b, f) == ConcatMap(a, f) + ConcatMap(b, f)
    decreases |b|
  {
    if b == [] {
      assert a + b == a;
    } else {
      var b' := b[..|b| - 1];
      assert (a + b)[..|a + b| - 1] == a + b';
      ConcatMapAppend(a, b', f);
    }
  }

  /** An element whose piece is empty adds nothing. */
  lemma ConcatMapSkip<T>(a: seq<T>, x: T, b: seq<T>, f: T -> string)
    requires f(x) == ""
    ensures ConcatMap(a + [x] + b, f) == ConcatMap(a, f) + ConcatMap(b, f)
  {
    ConcatMapAppend(a + [x], b, f);
    ConcatMapEmptyLast(a, x, f);
  }

  lemma ConcatMapEmptyLast<T>(a: seq<T>, x: T, f: T -> string)
    requires f(x) == ""
    ensures ConcatMap(a + [x], f) == ConcatMap(a, f)
  {
    assert (a + [x])[..|a + [x]| - 1] == a;
    assert ConcatMap(a + [x], f) == ConcatMap(a, f) + "";
  }

  /** The concatenation ends with the last piece. */
  lemma ConcatMapEndsWith<T>(xs: seq<T>, f: T -> string)
    requires xs != []
    ensures EndsWith(ConcatMap(xs, f), f(xs[|xs| - 1]))
  {
    var r := ConcatMap(xs, f);
    var last := f(xs[|xs| - 1]);
    assert r[|r| - |last|..] == last;
  }

  lemma EndsWithTrans(s: string, p: string, q: string)
    requires EndsWith(s, p) && EndsWith(p, q)
    ensures EndsWith(s, q)
  {
    assert s[|s| - |q|..] == s[|s| - |p|..][|p| - |q|..];
  }

  /** When every piece has `k` newlines, the concatenation has `k` per element. */
  lemma {:induction false} ConcatMapLines<T>(xs: seq<T>, f: T -> string)
    requires forall x :: x in xs ==> CountChar(f(x), '\n') == 1
    ensures CountChar(ConcatMap(xs, f), '\n') == |xs|
    decreases |xs|
  {
    if xs != [] {
      var init := xs[..|xs| - 1];
      assert forall x :: x in init ==> x in xs;
      ConcatMapLines(init, f);
      CountCharAppend(ConcatMap(init, f), f(xs[|xs| - 1]), '\n');
    }
  }

  lemma Assoc(a: string, b: string, c: string)
    ensures (a + b) + c == a + (b + c)
  {
  }

  /** A section opens with its heading and ends with what closes it. */
  lemma Framed(head: string, body: string, close: string)
    ensures StartsWith(head + body + close, head)
    ensures EndsWith(head + body + close, close)
  {
    var r := head + body + close;
    assert r[..|head|] == head;
    assert r[|r| - |close|..] == close;
  }

  /** A piece closed by a newline. */
  function Line(s: string): string {
    s + "\n"
  }

  /** A piece without a newline, closed by one, is one line. */
  lemma OneLine(s: string)
    requires '\n' !in s
    ensures CountChar(Line(s), '\n') == 1
  {
    CountCharZero(s, '\n');
    CountCharAppend(s, "\n", '\n');
  }

  /** `f"## {title}\n\n"`: a second-level heading and a blank line. */
  function H2(title: string): string {
    "## " + title + "\n\n"
  }

  lemma H2Lines(title: string)
    requires '\n' !in title
    ensures CountChar(H2(title), '\n') == 2
    ensures StartsWith(H2(title), "## " + title)
  {
    CountCharZero("## " + title, '\n');
    CountCharAppend("## " + title, "\n\n", '\n');
    assert H2(title)[..|"## " + title|] == "## " + title;
  }

  /** A heading, a body and a closing blank line. */
  lemma SectionLines(title: string, body: string, k: nat)
    requires '\n' !in title
    requires CountChar(body, '\n') == k
    ensures CountChar(H2(title) + body + "\n", '\n') == k + 3
  {
    H2Lines(title);
    CountCharAppend(H2(title) + body, "\n", '\n');
    CountCharAppend(H2(title), body, '\n');
  }

  // ---------------------------------------------------------------------------
  // format_document_header

  /** `format_document_header`: "# " and the title (default "Untitled") on a
      line of its own, then the rest of the header. */
  function Header(m: Metadata): string {
    Line("# " + m.title.GetOr("Untitled")) + HeaderTail(m)
  }

  /** The bold role heading when non-empty and the role in parentheses
      (default "article") when non-empty, then a blank line. */
  function HeaderTail(m: Metadata): string {
    var role := m.role.GetOr("article");
    var roleHeading := m.roleHeading.GetOr("");
    (if roleHeading != "" then "**" + roleHeading + "**" else "")
    + RolePart(role)
    + "\n\n"
  }

  function RolePart(role: string): string {
    if role != "" then " (" + role + ")" else ""
  }

  /** The text up to the first newline. */
  function FirstLine(s: string): (r: string)
    ensures StartsWith(s, r)
    ensures '\n' !in r
    decreases |s|
  {
    if s == [] || s[0] == '\n' then "" else [s[0]] + FirstLine(s[1..])
  }

  lemma {:induction false} FirstLineOf(a: string, b: string)
    requires '\n' !in a
    ensures FirstLine(a + "\n" + b) == a
    decreases |a|
  {
    if a != [] {
      assert a[0] in a;
      assert (a + "\n" + b)[1..] == a[1..] + "\n" + b;
      FirstLineOf(a[1..], b);
      assert [a[0]] + a[1..] == a;
    }
  }

  /** The header's first line is "# " and the title (when the title is one line). */
  lemma HeaderTitle(m: Metadata)
    ensures var h := Header(m);
            var title := m.title.GetOr("Untitled");
            && StartsWith(h, Line("# " + title))
            && ('\n' !in title ==> FirstLine(h) == "# " + title)
  {
    var h := Header(m);
    var title := m.title.GetOr("Untitled");
    assert h[..|Line("# " + title)|] == Line("# " + title);
    if '\n' !in title {
      assert '\n' !in "# " + title;
      FirstLineOf("# " + title, HeaderTail(m));
    }
  }

  /** The header ends with a blank line; a role that is not empty closes it in
      parentheses, and a missing role shows as "article". */
  lemma HeaderEnd(m: Metadata)
    ensures var h := Header(m);
            && EndsWith(h, "\n\n")
            && (m.role != Some("") ==> EndsWith(h, " (" + m.role.GetOr("article") + ")\n\n"))
            && (m.role == Some("") ==> !EndsWith(h, ")\n\n"))
  {
    var h := Header(m);
    var tail := HeaderTail(m);
    assert h[|h| - |tail|..] == tail;
    TailEnds(m);
    EndsWithTrans(h, tail, "\n\n");
    if m.role != Some("") {
      EndsWithTrans(h, tail, " (" + m.role.GetOr("article") + ")\n\n");
    } else if |tail| == 2 {
      assert h[|h| - 3] == '\n';
    } else {
      assert h[|h| - 3] == tail[|tail| - 3];
    }
  }

  lemma TailEnds(m: Metadata)
    ensures var tail := HeaderTail(m);
            && EndsWith(tail, "\n\n")
            && (m.role != Some("") ==> EndsWith(tail, " (" + m.role.GetOr("article") + ")\n\n"))
            && (m.role == Some("") ==> |tail| == 2 || tail[|tail| - 3] == '*')
  {
    var tail := HeaderTail(m);
    assert tail[|tail| - 2..] == "\n\n";
    if m.role != Some("") {
      var close := " (" + m.role.GetOr("article") + ")\n\n";
      assert tail[|tail| - |close|..] == close;
    } else {
      var pre := if m.roleHeading.GetOr("") != "" then "**" + m.roleHeading.GetOr("") + "**" else "";
      if pre != "" {
        assert tail == pre + "\n\n";
        assert tail[|tail| - 3] == pre[|pre| - 1];
      }
    }
  }

  // ---------------------------------------------------------------------------
  // format_document_abstract and is_specific_api_document

  /** `format_document_abstract`: nothing without an abstract, else its texts
      joined by spaces and a blank line. */
  function AbstractMarkdown(items: seq<TextItem>): string {
    if items == [] then "" else Join(" ", Texts(items)) + "\n\n"
  }

  /** Empty exactly without an abstract; otherwise, when no text holds a space,
      splitting the paragraph at spaces gives the texts back. */
  lemma AbstractRoundTrip(items: seq<TextItem>)
    ensures var r := AbstractMarkdown(items);
            && (r == "" <==> items == [])
            && (items != [] ==> EndsWith(r, "\n\n"))
            && (items != [] && (forall i :: 0 <= i < |items| ==> ' ' !in TextOf(items[i])) ==>
                  Split(r[..|r| - 2], ' ') == Texts(items))
  {
    var r := AbstractMarkdown(items);
    if items != [] {
      var j := Join(" ", Texts(items));
      assert r == j + "\n\n";
      assert r[|r| - 2..] == "\n\n";
      assert r[..|r| - 2] == j;
      if forall i :: 0 <= i < |items| ==> ' ' !in TextOf(items[i]) {
        SplitJoin(Texts(items), ' ');
      }
    }
  }

  /** `is_specific_api_document`: the role (default "") is "symbol" or "collectionGroup". */
  predicate IsSpecificApiDocument(m: Metadata) {
    m.role.GetOr("") in ["symbol", "collectionGroup"]
  }

  /** A symbol page always names its role, and the header shows it; a page
      without a role is never one, although its header calls it an article. */
  lemma SpecificApiDocumentRole(m: Metadata)
    ensures IsSpecificApiDocument(m) <==> m.role == Some("symbol") || m.role == Some("collectionGroup")
    ensures IsSpecificApiDocument(m) ==> EndsWith(Header(m), " (" + m.role.value + ")\n\n")
    ensures m.role.None? ==> !IsSpecificApiDocument(m) && EndsWith(Header(m), " (article)\n\n")
  {
    HeaderEnd(m);
  }

  // ---------------------------------------------------------------------------
  // format_specific_api_content

  /** One fenced code block. */
  function Fence(lang: string, code: string): string {
    "```" + lang + "\n" + code + "\n```\n\n"
  }

  /** Reads a fenced block back: the language is the rest of the first line. */
  function UnFence(s: string): Option<(string, string)> {
    if StartsWith(s, "```") && EndsWith(s, "\n```\n\n") then
      var lang := FirstLine(s[3..]);
      if 3 + |lang| + 1 <= |s| - 6 then Some((lang, s[3 + |lang| + 1..|s| - 6])) else None
    else None
  }

  /** A block is read back as its language and code when the language is one line. */
  lemma UnFenceFence(lang: string, code: string)
    requires '\n' !in lang
    ensures UnFence(Fence(lang, code)) == Some((lang, code))
  {
    FenceParts(lang, code);
    FirstLineOf(lang, code + "\n```\n\n");
  }

  lemma FenceParts(lang: string, code: string)
    ensures var s := Fence(lang, code);
            && StartsWith(s, "```") && EndsWith(s, "\n```\n\n")
            && s[3..] == lang + "\n" + (code + "\n```\n\n")
            && s[3 + |lang| + 1..|s| - 6] == code
  {
    var s := Fence(lang, code);
    assert s == "```" + (lang + "\n" + code + "\n```\n\n");
    assert s[..3] == "```";
    assert s[|s| - 6..] == "\n```\n\n";
  }

  /** One block per language (default Swift), all showing the token texts joined. */
  function DeclarationMarkdown(d: Declaration): string {
    var code := Concat(Texts(d.tokens));
    ConcatMap(d.languages.GetOr(["swift"]), (lang: string) => Fence(lang, code))
  }

  /** A declaration without languages shows one Swift block. */
  lemma DeclarationDefaultSwift(d: Declaration)
    requires d.languages.None?
    ensures DeclarationMarkdown(d) == Fence("swift", Concat(Texts(d.tokens)))
  {
    var f := (lang: string) => Fence(lang, Concat(Texts(d.tokens)));
    assert ["swift"][..0] == [];
    assert ConcatMap(["swift"], f) == ConcatMap([], f) + f("swift");
  }

  /** Each language gives one block, in order: the blocks of two language
      lists are those of the first followed by those of the second. */
  lemma DeclarationLanguages(tokens: seq<TextItem>, a: seq<string>, b: seq<string>)
    ensures DeclarationMarkdown(Declaration(tokens, Some(a + b)))
            == DeclarationMarkdown(Declaration(tokens, Some(a))) + DeclarationMarkdown(Declaration(tokens, Some(b)))
  {
    ConcatMapAppend(a, b, (lang: string) => Fence(lang, Concat(Texts(tokens))));
  }

  /** "- `name`: " and the content texts joined by spaces, on one line. */
  function ParameterLine(p: Parameter): string {
    Line("- `" + p.name.GetOr("") + "`: " + Join(" ", Texts(p.content)))
  }

  /** One primary content section: declarations, parameters or content. */
  function PrimarySectionMarkdown(s: PrimarySection): string {
    match s
    case Declarations(ds) => H2("Declaration") + ConcatMap(ds, DeclarationMarkdown)
    case Parameters(ps) => H2("Parameters") + ConcatMap(ps, ParameterLine) + "\n"
    case Content(items) => ContentMarkdown(items)
    case OtherSection => ""
  }

  /** `format_specific_api_content`. */
  function SpecificApiContent(doc: Doc): string {
    ConcatMap(doc.primaryContentSections, PrimarySectionMarkdown)
  }

  /** The content of a page is the content of its sections, one after the other,
      and a section of another kind adds nothing. */
  lemma SpecificApiContentSections(doc: Doc, a: seq<PrimarySection>, b: seq<PrimarySection>)
    requires doc.primaryContentSections == a + [OtherSection] + b
    ensures SpecificApiContent(doc)
            == ConcatMap(a, PrimarySectionMarkdown) + ConcatMap(b, PrimarySectionMarkdown)
  {
    ConcatMapSkip(a, OtherSection, b, PrimarySectionMarkdown);
  }

  /** Newline-free name and text of a parameter. */
  predicate OneLineParameter(p: Parameter) {
    '\n' !in p.name.GetOr("") && '\n' !in Join(" ", Texts(p.content))
  }

  /** A parameters section is its heading, one line per parameter and a blank
      line: with one-line names and texts, three more newlines than parameters. */
  lemma ParametersLines(ps: seq<Parameter>)
    requires forall p :: p in ps ==> OneLineParameter(p)
    ensures CountChar(PrimarySectionMarkdown(Parameters(ps)), '\n') == |ps| + 3
  {
    forall p | p in ps ensures CountChar(ParameterLine(p), '\n') == 1 {
      OneLine("- `" + p.name.GetOr("") + "`: " + Join(" ", Texts(p.content)));
    }
    ConcatMapLines(ps, ParameterLine);
    SectionLines("Parameters", ConcatMap(ps, ParameterLine), |ps|);
  }

  // ---------------------------------------------------------------------------
  // format_content_section

  /** A list entry: the inline texts of all its paragraphs run together. */
  function ListItemText(li: ListItem): string {
    ConcatMap(li.paragraphs, (para: seq<TextItem>) => Concat(Texts(para)))
  }

  /** "- " and the entry's text, on one line. */
  function ListLine(li: ListItem): string {
    Line("- " + ListItemText(li))
  }

  /** One content item: a paragraph, a heading of `level` hashes (default 2; a
      level below one gives none), a bulleted list, or nothing. */
  function ContentItemMarkdown(item: ContentItem): string {
    match item
    case Paragraph(inline) => Concat(Texts(inline)) + "\n\n"
    case Heading(level, text) => Repeat("#", level.GetOr(2)) + " " + text.GetOr("") + "\n\n"
    case UnorderedList(items) => ConcatMap(items, ListLine) + "\n"
    case OtherItem => ""
  }

  /** `format_content_section`. */
  function ContentMarkdown(items: seq<ContentItem>): string {
    ConcatMap(items, ContentItemMarkdown)
  }

  /** A heading is `level` hashes, a space and the text; a level of 1 to 6 gives a
      markdown heading of that depth. */
  lemma HeadingShape(level: Option<int>, text: Option<string>)
    ensures var r := ContentItemMarkdown(Heading(level, text));
            var n := level.GetOr(2);
            var hashes := if n <= 0 then 0 else n;
            && |r| == hashes + 1 + |text.GetOr("")| + 2
            && (forall i :: 0 <= i < hashes ==> r[i] == '#')
            && r[hashes] == ' '
            && r[hashes + 1..|r| - 2] == text.GetOr("")
  {
    var n := level.GetOr(2);
    RepeatHash(n);
  }

  lemma {:induction false} RepeatHash(n: int)
    ensures forall i :: 0 <= i < |Repeat("#", n)| ==> Repeat("#", n)[i] == '#'
    decreases if n <= 0 then 0 else n
  {
    if n > 0 {
      RepeatHash(n - 1);
    }
  }

  /** A list with `k` entries, each of one line, is `k` lines and a blank line. */
  lemma ListLines(items: seq<ListItem>)
    requires forall li :: li in items ==> '\n' !in ListItemText(li)
    ensures CountChar(ContentItemMarkdown(UnorderedList(items)), '\n') == |items| + 1
  {
    forall li | li in items ensures CountChar(ListLine(li), '\n') == 1 {
      OneLine("- " + ListItemText(li));
    }
    ConcatMapLines(items, ListLine);
    CountCharAppend(ConcatMap(items, ListLine), "\n", '\n');
  }

  // ---------------------------------------------------------------------------
  // format_api_collection_content

  /** One identifier of a topic section: a bulleted link (the title defaults to
      "Unknown", the URL to "" and is made absolute), its abstract after a colon
      when it has one; nothing for an unknown or empty reference. */
  function CollectionLine(refs: seq<RefEntry>, id: string): string {
    match Linked(refs, id)
    case Some(ref) =>
      Line("- [" + ref.title.GetOr("Unknown") + "](" + SiteUrl(ref.url.GetOr("")) + ")"
           + (if ref.abstractItems != [] then ": " + Join(" ", Texts(ref.abstractItems)) else ""))
    case None => ""
  }

  /** One topic section: its title as a heading when it has one, then its links. */
  function TopicMarkdown(refs: seq<RefEntry>, s: Section): string {
    (if Truthy(s.title) then H2(s.title.value) else "")
    + ConcatMap(s.identifiers, (id: string) => CollectionLine(refs, id))
    + "\n"
  }

  /** `format_api_collection_content`. */
  function ApiCollectionContent(doc: Doc): string {
    ConcatMap(doc.topicSections, (s: Section) => TopicMarkdown(doc.references, s))
  }

  /** An identifier gives a line exactly when it names a non-empty reference, and
      the line links that reference's absolute URL. */
  lemma CollectionLineIff(refs: seq<RefEntry>, id: string)
    ensures CollectionLine(refs, id) != "" <==> Linked(refs, id).Some?
    ensures Linked(refs, id).Some? ==>
              var ref := Linked(refs, id).value;
              StartsWith(CollectionLine(refs, id), "- [" + ref.title.GetOr("Unknown") + "](" + SiteUrl(ref.url.GetOr("")) + ")")
              && EndsWith(CollectionLine(refs, id), "\n")
  {
    if Linked(refs, id).Some? {
      var ref := Linked(refs, id).value;
      var head := "- [" + ref.title.GetOr("Unknown") + "](" + SiteUrl(ref.url.GetOr("")) + ")";
      var r := CollectionLine(refs, id);
      var mid := if ref.abstractItems != [] then ": " + Join(" ", Texts(ref.abstractItems)) else "";
      Framed(head, mid, "\n");
    }
  }

  // ---------------------------------------------------------------------------
  // format_platform_availability

  /** "- **name**: ", the introduced and deprecated versions when present, and a newline. */
  function PlatformLine(p: Platform): string {
    Line("- **" + p.name.GetOr("") + "**: "
         + (if Truthy(p.introducedAt) then "Introduced in " + p.introducedAt.value else "")
         + (if Truthy(p.deprecatedAt) then ", Deprecated in " + p.deprecatedAt.value else ""))
  }

  /** `format_platform_availability`. */
  function Availability(platforms: seq<Platform>): string {
    if platforms == [] then "" else H2("Availability") + ConcatMap(platforms, PlatformLine) + "\n"
  }

  /** Newline-free fields of a platform entry. */
  predicate OneLinePlatform(p: Platform) {
    '\n' !in p.name.GetOr("") && '\n' !in p.introducedAt.GetOr("") && '\n' !in p.deprecatedAt.GetOr("")
  }

  lemma PlatformLineCount(p: Platform)
    requires OneLinePlatform(p)
    ensures CountChar(PlatformLine(p), '\n') == 1
  {
    var intro := if Truthy(p.introducedAt) then "Introduced in " + p.introducedAt.value else "";
    var dep := if Truthy(p.deprecatedAt) then ", Deprecated in " + p.deprecatedAt.value else "";
    var line := "- **" + p.name.GetOr("") + "**: " + intro + dep;
    assert '\n' !in intro;
    assert '\n' !in dep;
    OneLine(line);
  }

  /** Empty exactly without platforms; otherwise a heading, one line per
      platform and a blank line. */
  lemma AvailabilityShape(platforms: seq<Platform>)
    ensures var r := Availability(platforms);
            && (r == "" <==> platforms == [])
            && (platforms != [] ==> StartsWith(r, H2("Availability")) && EndsWith(r, "\n"))
            && (platforms != [] && (forall p :: p in platforms ==> OneLinePlatform(p)) ==>
                  CountChar(r, '\n') == |platforms| + 3)
  {
    var r := Availability(platforms);
    if platforms != [] {
      var body := ConcatMap(platforms, PlatformLine);
      H2Lines("Availability");
      assert r == H2("Availability") + body + "\n";
      Framed(H2("Availability"), body, "\n");
            if forall p :: p in platforms ==> OneLinePlatform(p) {
        forall p | p in platforms ensures CountChar(PlatformLine(p), '\n') == 1 {
          PlatformLineCount(p);
        }
        ConcatMapLines(platforms, PlatformLine);
        SectionLines("Availability", body, |platforms|);
      }
    }
  }

  /** The loop of `format_platform_availability`. */
  method FormatPlatformAvailability(platforms: seq<Platform>) returns (r: string)
    ensures r == Availability(platforms)
  {
    if platforms == [] {
      return "";
    }
    r := H2("Availability");
    var j := 0;
    while j < |platforms|
      invariant 0 <= j <= |platforms|
      invariant r == H2("Availability") + ConcatMap(platforms[..j], PlatformLine)
    {
      ConcatMapStep(platforms, PlatformLine, j);
      Assoc(H2("Availability"), ConcatMap(platforms[..j], PlatformLine), PlatformLine(platforms[j]));
      r := r + PlatformLine(platforms[j]);
      j := j + 1;
    }
    assert platforms[..j] == platforms;
    r := r + "\n";
  }

  // ---------------------------------------------------------------------------
  // format_see_also_section

  /** A see-also link: the title (default "Unknown") and the absolute URL (default ""). */
  function SeeAlsoLine(refs: seq<RefEntry>, id: string): string {
    match Linked(refs, id)
    case Some(ref) => SeeAlsoLink(ref)
    case None => ""
  }

  function SeeAlsoLink(ref: Reference): string {
    Line("- [" + ref.title.GetOr("Unknown") + "](" + SiteUrl(ref.url.GetOr("")) + ")")
  }

  /** One see-also group: its title as a third-level heading when it has one, then its links. */
  function SeeAlsoGroup(refs: seq<RefEntry>, s: Section): string {
    (if Truthy(s.title) then "### " + s.title.value + "\n\n" else "")
    + ConcatMap(s.identifiers, (id: string) => SeeAlsoLine(refs, id))
    + "\n"
  }

  /** `format_see_also_section`. */
  function SeeAlsoMarkdown(doc: Doc): string {
    if doc.seeAlsoSections == [] then ""
    else H2("See Also") + ConcatMap(doc.seeAlsoSections, (s: Section) => SeeAlsoGroup(doc.references, s))
  }

  lemma SeeAlsoGroupEnds(refs: seq<RefEntry>, s: Section)
    ensures EndsWith(SeeAlsoGroup(refs, s), "\n")
  {
    Framed(if Truthy(s.title) then "### " + s.title.value + "\n\n" else "",
           ConcatMap(s.identifiers, (id: string) => SeeAlsoLine(refs, id)), "\n");
  }

  /** Empty exactly without see-also sections; otherwise it opens with its heading
      and ends with a newline. */
  lemma SeeAlsoShape(doc: Doc)
    ensures var r := SeeAlsoMarkdown(doc);
            && (r == "" <==> doc.seeAlsoSections == [])
            && (doc.seeAlsoSections != [] ==> StartsWith(r, H2("See Also")) && EndsWith(r, "\n"))
  {
    var r := SeeAlsoMarkdown(doc);
    var sections := doc.seeAlsoSections;
    if sections != [] {
      var f := (s: Section) => SeeAlsoGroup(doc.references, s);
      var groups := ConcatMap(sections, f);
      Framed(H2("See Also"), groups, "");
      assert r == H2("See Also") + groups + "";
      ConcatMapEndsWith(sections, f);
      SeeAlsoGroupEnds(doc.references, sections[|sections| - 1]);
      EndsWithTrans(r, groups, f(sections[|sections| - 1]));
      EndsWithTrans(r, f(sections[|sections| - 1]), "\n");
    }
  }

  /** A see-also link exists exactly for an identifier naming a non-empty reference. */
  lemma SeeAlsoLineIff(refs: seq<RefEntry>, id: string)
    ensures SeeAlsoLine(refs, id) != "" <==> Linked(refs, id).Some?
    ensures Linked(refs, id).Some? ==> SeeAlsoLine(refs, id) == SeeAlsoLink(Linked(refs, id).value)
  {
  }

  /** A see-also link is one line when its title and URL are. */
  lemma SeeAlsoLinkOneLine(ref: Reference)
    requires '\n' !in ref.title.GetOr("Unknown") && '\n' !in SiteUrl(ref.url.GetOr(""))
    ensures CountChar(SeeAlsoLink(ref), '\n') == 1
  {
    OneLine("- [" + ref.title.GetOr("Unknown") + "](" + SiteUrl(ref.url.GetOr("")) + ")");
  }

  // ---------------------------------------------------------------------------
  // format_related_apis_section, format_references_section, format_similar_apis_section

  /** "- [title](url) (caption)" on one line. */
  function LinkLine(l: ApiLink): string {
    Line("- [" + l.title + "](" + l.url + ") (" + l.caption + ")")
  }

  predicate OneLineLink(l: ApiLink) {
    '\n' !in l.title && '\n' !in l.url && '\n' !in l.caption
  }

  /** A heading and one line per link, or nothing for no links. */
  function LinkSection(title: string, links: seq<ApiLink>): string {
    if links == [] then "" else H2(title) + ConcatMap(links, LinkLine) + "\n"
  }

  /** `format_related_apis_section`, the caption being the relationship. */
  function RelatedApisMarkdown(links: seq<ApiLink>): string {
    LinkSection("Related APIs", links)
  }

  /** `format_similar_apis_section`, the caption being the category. */
  function SimilarApisMarkdown(links: seq<ApiLink>): string {
    LinkSection("Similar APIs", links)
  }

  /** Empty exactly without links; otherwise the heading, one line per link
      (when the links are one line each) and a blank line. */
  lemma LinkSectionShape(title: string, links: seq<ApiLink>)
    requires '\n' !in title
    ensures var r := LinkSection(title, links);
            && (r == "" <==> links == [])
            && (links != [] ==> StartsWith(r, H2(title)) && EndsWith(r, "\n"))
            && (links != [] && (forall l :: l in links ==> OneLineLink(l)) ==> CountChar(r, '\n') == |links| + 3)
  {
    var r := LinkSection(title, links);
    if links != [] {
      var body := ConcatMap(links, LinkLine);
      H2Lines(title);
      Framed(H2(title), body, "\n");
      if forall l :: l in links ==> OneLineLink(l) {
        forall l | l in links ensures CountChar(LinkLine(l), '\n') == 1 {
          OneLine("- [" + l.title + "](" + l.url + ") (" + l.caption + ")");
        }
        ConcatMapLines(links, LinkLine);
        SectionLines(title, body, |links|);
      }
    }
  }

  /** A reference: its link and type on one line, and its abstract indented on a
      second line when it has one. */
  function ReferenceLines(ref: ReferenceInfo): string {
    Line("- [" + ref.title + "](" + ref.url + ") (" + ref.refType + ")")
    + (if ref.summary != "" then Line("  " + ref.summary) else "")
  }

  /** `format_references_section`. */
  function ReferencesMarkdown(refs: seq<ReferenceInfo>): string {
    if refs == [] then "" else H2("References") + ConcatMap(refs, ReferenceLines) + "\n"
  }

  /** The loop of `format_references_section`. */
  method FormatReferencesSection(refs: seq<ReferenceInfo>) returns (r: string)
    ensures r == ReferencesMarkdown(refs)
  {
    if refs == [] {
      return "";
    }
    r := H2("References");
    var j := 0;
    while j < |refs|
      invariant 0 <= j <= |refs|
      invariant r == H2("References") + ConcatMap(refs[..j], ReferenceLines)
    {
      ConcatMapStep(refs, ReferenceLines, j);
      Assoc(H2("References"), ConcatMap(refs[..j], ReferenceLines), ReferenceLines(refs[j]));
      r := r + ReferenceLines(refs[j]);
      j := j + 1;
    }
    assert refs[..j] == refs;
    r := r + "\n";
  }

  /** Empty exactly without references; otherwise headed "## References" and
      ending in a newline. */
  lemma ReferencesShape(refs: seq<ReferenceInfo>)
    ensures var r := ReferencesMarkdown(refs);
            && (r == "" <==> refs == [])
            && (refs != [] ==> StartsWith(r, H2("References")) && EndsWith(r, "\n"))
  {
    if refs != [] {
      Framed(H2("References"), ConcatMap(refs, ReferenceLines), "\n");
    }
  }

  /** The references section of a page is empty exactly when the page has no references. */
  lemma ReferencesSection(doc: Doc)
    ensures ReferencesMarkdown(References(doc)) == "" <==> doc.references == []
  {
    ReferencesShape(References(doc));
    assert |References(doc)| == |Prefix(doc.references, MaxDocFetcherReferences)|;
  }

  // ---------------------------------------------------------------------------
  // format_platform_analysis_section

  /** The closing line of the platform analysis. */
  function CrossPlatformLine(crossPlatform: bool): string {
    "**Cross-Platform:** " + (if crossPlatform then "Yes" else "No") + "\n\n"
  }

  /** The supported platforms. */
  function SupportedLine(a: PlatformAnalysis): string {
    "**Supported Platforms:** " + a.supportedPlatforms
  }

  /** A blank line, then the beta and deprecated platforms when there are any. */
  function AnalysisExtras(a: PlatformAnalysis): string {
    "\n\n"
    + (if a.betaPlatforms != [] then "**Beta Platforms:** " + Join(", ", a.betaPlatforms) + "\n\n" else "")
    + (if a.deprecatedPlatforms != [] then "**Deprecated Platforms:** " + Join(", ", a.deprecatedPlatforms) + "\n\n" else "")
  }

  /** `format_platform_analysis_section`. */
  function PlatformAnalysisMarkdown(a: PlatformAnalysis): string {
    H2("Platform Analysis") + SupportedLine(a) + AnalysisExtras(a) + CrossPlatformLine(a.crossPlatform)
  }

  /** The section opens with its heading and the supported platforms, and
      closes with the cross-platform line. */
  lemma PlatformAnalysisShape(a: PlatformAnalysis)
    ensures var r := PlatformAnalysisMarkdown(a);
            && StartsWith(r, H2("Platform Analysis") + SupportedLine(a))
            && EndsWith(r, CrossPlatformLine(a.crossPlatform))
  {
    Framed(H2("Platform Analysis") + SupportedLine(a), AnalysisExtras(a), CrossPlatformLine(a.crossPlatform));
  }

  /** A text that ends with one closing line ends with the "Yes" line exactly
      when that closing line is the "Yes" one. */
  lemma CrossPlatformEnding(r: string, crossPlatform: bool)
    requires EndsWith(r, CrossPlatformLine(crossPlatform))
    ensures EndsWith(r, CrossPlatformLine(true)) <==> crossPlatform
  {
    if !crossPlatform {
      var yes := CrossPlatformLine(true);
      var no := CrossPlatformLine(false);
      assert r[|r| - 3] == no[|no| - 3] == 'o';
      assert |yes| <= |r| ==> r[|r| - |yes|..][|yes| - 3] == r[|r| - 3];
      assert yes[|yes| - 3] == 's';
    }
  }

  /** For the analysis of a page: the section first lists every platform name,
      and it closes with "Yes" exactly when the page has more than one platform. */
  lemma PlatformAnalysisSection(doc: Doc)
    requires doc.metadata.platforms != []
    ensures var r := PlatformAnalysisMarkdown(AnalyzePlatformCompatibility(doc).value);
            && StartsWith(r, H2("Platform Analysis") + ("**Supported Platforms:** " + Join(", ", PlatformNames(doc.metadata.platforms))))
            && EndsWith(r, CrossPlatformLine(|doc.metadata.platforms| > 1))
            && (EndsWith(r, CrossPlatformLine(true)) <==> |doc.metadata.platforms| > 1)
  {
    var a := AnalyzePlatformCompatibility(doc).value;
    PlatformAnalysisShape(a);
    CrossPlatformEnding(PlatformAnalysisMarkdown(a), |doc.metadata.platforms| > 1);
  }
}
