/** The documentation JSON that Apple's documentation API serves, as the
    fetcher and the markdown formatter read it. A key the JSON lacks is `None`
    (or an empty list where the code reads it with a list default); an object
    is its entries in document order, with distinct keys. */
module DocJson {
  import opened Wrappers
  import opened PyStr
  import opened Constants

  /** An item with an optional `text`, as in abstracts, tokens and inline content. */
  datatype TextItem = TextItem(text: Option<string>)

  /** A `references` value; `otherKeys` says whether it has keys besides these. */
  datatype Reference = Reference(
    title: Option<string>,
    url: Option<string>,
    role: Option<string>,
    kind: Option<string>,
    abstractItems: seq<TextItem>,
    otherKeys: bool)

  /** One entry of the `references` object. */
  datatype RefEntry = RefEntry(key: string, ref: Reference)

  /** A topic, see-also or relationships section. */
  datatype Section = Section(title: Option<string>, identifiers: seq<string>)

  /** A `metadata.platforms` entry; `beta` and `deprecated` are the truth of those keys. */
  datatype Platform = Platform(
    name: Option<string>,
    introducedAt: Option<string>,
    deprecatedAt: Option<string>,
    beta: bool,
    deprecated: bool)

  datatype Metadata = Metadata(
    title: Option<string>,
    role: Option<string>,
    roleHeading: Option<string>,
    platforms: seq<Platform>)

  datatype Declaration = Declaration(tokens: seq<TextItem>, languages: Option<seq<string>>)

  datatype Parameter = Parameter(name: Option<string>, content: seq<TextItem>)

  /** A list entry: its paragraphs, each a run of inline content. */
  datatype ListItem = ListItem(paragraphs: seq<seq<TextItem>>)

  /** An entry of a content section, by its `type`. */
  datatype ContentItem =
    | Paragraph(inlineContent: seq<TextItem>)
    | Heading(level: Option<int>, text: Option<string>)
    | UnorderedList(items: seq<ListItem>)
    | OtherItem

  /** A `primaryContentSections` entry, by its `kind`. */
  datatype PrimarySection =
    | Declarations(declarations: seq<Declaration>)
    | Parameters(parameters: seq<Parameter>)
    | Content(content: seq<ContentItem>)
    | OtherSection

  datatype Doc = Doc(
    metadata: Metadata,
    abstractItems: seq<TextItem>,
    primaryContentSections: seq<PrimarySection>,
    topicSections: seq<Section>,
    seeAlsoSections: seq<Section>,
    relationshipsSections: seq<Section>,
    references: seq<RefEntry>)

  /** `item.get("text", "")`. */
  function TextOf(item: TextItem): string {
    item.text.GetOr("")
  }

  function Texts(items: seq<TextItem>): (ts: seq<string>)
    ensures |ts| == |items|
    ensures forall i :: 0 <= i < |items| ==> ts[i] == TextOf(items[i])
  {
    seq(|items|, i requires 0 <= i < |items| => TextOf(items[i]))
  }

  /** A reference dict is true in Python when it has at least one key. */
  predicate Present(ref: Reference) {
    ref.title.Some? || ref.url.Some? || ref.role.Some? || ref.kind.Some? || ref.abstractItems != [] || ref.otherKeys
  }

  /** `json_data.get("references", {}).get(identifier)`. */
  function Lookup(refs: seq<RefEntry>, id: string): Option<Reference>
    decreases |refs|
  {
    if refs == [] then None
    else if refs[0].key == id then Some(refs[0].ref)
    else Lookup(refs[1..], id)
  }

  /** A lookup finds a value exactly when some entry has the key, and what it
      finds is the value of the first such entry. */
  lemma {:induction false} LookupFinds(refs: seq<RefEntry>, id: string)
    ensures Lookup(refs, id).Some? <==> exists i :: 0 <= i < |refs| && refs[i].key == id
    ensures Lookup(refs, id).Some? ==>
              exists i :: 0 <= i < |refs| && refs[i] == RefEntry(id, Lookup(refs, id).value)
                && forall j :: 0 <= j < i ==> refs[j].key != id
    decreases |refs|
  {
    if refs != [] && refs[0].key != id {
      LookupFinds(refs[1..], id);
      if exists i :: 0 <= i < |refs| && refs[i].key == id {
        var i :| 0 <= i < |refs| && refs[i].key == id;
        assert refs[1..][i - 1].key == id;
      }
      if Lookup(refs, id).Some? {
        var i :| 0 <= i < |refs[1..]| && refs[1..][i] == RefEntry(id, Lookup(refs, id).value)
                  && forall j :: 0 <= j < i ==> refs[1..][j].key != id;
        assert refs[i + 1] == RefEntry(id, Lookup(refs, id).value);
        forall j | 0 <= j < i + 1 ensures refs[j].key != id {
          if j > 0 {
            assert refs[j] == refs[1..][j - 1];
          }
        }
      }
    }
  }

  /** The reference an identifier names, when it exists and is not empty. */
  function Linked(refs: seq<RefEntry>, id: string): (r: Option<Reference>)
    ensures r.Some? ==> Lookup(refs, id) == r && Present(r.value)
  {
    match Lookup(refs, id)
    case Some(ref) => if Present(ref) then Some(ref) else None
    case None => None
  }

  /** A site-relative URL made absolute: one starting with "/" gets the
      developer site in front, any other is kept. */
  function SiteUrl(url: string): (r: string)
    ensures !StartsWith(r, "/")
    ensures EndsWith(r, url)
    ensures StartsWith(url, "/") ==> StartsWith(r, BaseUrl)
    ensures !StartsWith(url, "/") ==> r == url
  {
    if StartsWith(url, "/") then
      assert (BaseUrl + url)[|BaseUrl + url| - |url|..] == url;
      assert (BaseUrl + url)[0] == 'h';
      BaseUrl + url
    else
      assert url[|url| - |url|..] == url;
      url
  }

  /** Making a URL absolute twice changes nothing more. */
  lemma SiteUrlIdempotent(url: string)
    ensures SiteUrl(SiteUrl(url)) == SiteUrl(url)
  {
  }
}
