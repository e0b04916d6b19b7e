/** `fetch_apple_doc_json` and the extractors it offers: related APIs, references,
    similar APIs and the platform analysis of one documentation page. */
module Fetcher {
  import opened Wrappers
  import opened PyStr
  import opened PySeq
  import opened Constants
  import opened ToolOutput
  import opened DocJson
  import opened UrlConverter

  // ---------------------------------------------------------------------------
  // extract_related_apis and extract_similar_apis

  /** A related or similar API: its title, its absolute URL and its caption (the
      `relationship` of a related API, the `category` of a similar one). */
  datatype ApiLink = ApiLink(title: string, url: string, caption: string)

  function LinkOf(ref: Reference, caption: string): ApiLink {
    ApiLink(ref.title.GetOr("Unknown"), SiteUrl(ref.url.GetOr("#")), caption)
  }

  /** The links of one section's identifiers, in order, skipping identifiers
      with no reference or an empty one. */
  function SectionLinks(refs: seq<RefEntry>, ids: seq<string>, caption: string): (r: seq<ApiLink>)
    ensures |r| <= |ids|
    decreases |ids|
  {
    if ids == [] then []
    else
      var init := SectionLinks(refs, ids[..|ids| - 1], caption);
      match Linked(refs, ids[|ids| - 1])
      case Some(ref) => init + [LinkOf(ref, caption)]
      case None => init
  }

  /** `section.get("title", "Related")` behind the caption prefix. */
  function SectionCaption(s: Section, prefix: string): string {
    prefix + s.title.GetOr("Related")
  }

  /** The links of a section's first three identifiers, with its caption. */
  function SectionPart(refs: seq<RefEntry>, s: Section, prefix: string): seq<ApiLink> {
    SectionLinks(refs, Prefix(s.identifiers, MaxRelatedApisPerSection), SectionCaption(s, prefix))
  }

  /** The links of the first three identifiers of each section, section by section. */
  function SectionsLinks(refs: seq<RefEntry>, sections: seq<Section>, prefix: string): seq<ApiLink>
    decreases |sections|
  {
    if sections == [] then []
    else
      SectionsLinks(refs, sections[..|sections| - 1], prefix) + SectionPart(refs, sections[|sections| - 1], prefix)
  }

  /** Each section gives at most three links. */
  lemma {:induction false} SectionsLinksBound(refs: seq<RefEntry>, sections: seq<Section>, prefix: string)
    ensures |SectionsLinks(refs, sections, prefix)| <= 3 * |sections|
    decreases |sections|
  {
    if sections != [] {
      SectionsLinksBound(refs, sections[..|sections| - 1], prefix);
    }
  }

  const SeeAlsoPrefix := "See Also: "

  /** `extract_related_apis`: the relationship links, then the see-also links
      with their prefix, cut to ten. */
  function RelatedApis(doc: Doc): seq<ApiLink> {
    Prefix(SectionsLinks(doc.references, doc.relationshipsSections, "")
           + SectionsLinks(doc.references, doc.seeAlsoSections, SeeAlsoPrefix), MaxDocFetcherRelatedApis)
  }

  /** `extract_similar_apis`: the topic-section links, cut to eight. */
  function SimilarApis(doc: Doc): seq<ApiLink> {
    Prefix(SectionsLinks(doc.references, doc.topicSections, ""), MaxDocFetcherSimilarApis)
  }

  lemma SectionLinksStep(refs: seq<RefEntry>, ids: seq<string>, caption: string, j: nat)
    requires j < |ids|
    ensures SectionLinks(refs, ids[..j + 1], caption)
            == SectionLinks(refs, ids[..j], caption)
               + (match Linked(refs, ids[j]) case Some(ref) => [LinkOf(ref, caption)] case None => [])
  {
    assert ids[..j + 1][..j] == ids[..j];
  }

  lemma SectionsLinksStep(refs: seq<RefEntry>, sections: seq<Section>, prefix: string, j: nat)
    requires j < |sections|
    ensures SectionsLinks(refs, sections[..j + 1], prefix)
            == SectionsLinks(refs, sections[..j], prefix)
               + SectionPart(refs, sections[j], prefix)
  {
    assert sections[..j + 1][..j] == sections[..j];
  }

  /** `l` is the link of the non-empty reference that `id` names. */
  predicate LinksTo(refs: seq<RefEntry>, id: string, caption: string, l: ApiLink) {
    Linked(refs, id).Some? && l == LinkOf(Linked(refs, id).value, caption)
  }

  /** Some element of `xs` satisfies `p` iff one before the last does or the last does. */
  lemma ExistsSnoc<T>(xs: seq<T>, p: T -> bool)
    requires xs != []
    ensures (exists x :: x in xs && p(x)) <==> (exists x :: x in xs[..|xs| - 1] && p(x)) || p(xs[|xs| - 1])
  {
    if exists x :: x in xs && p(x) {
      var x :| x in xs && p(x);
      if x != xs[|xs| - 1] {
        assert xs == xs[..|xs| - 1] + [xs[|xs| - 1]];
        assert x in xs[..|xs| - 1];
      }
    }
  }

  lemma SectionLinksSnoc(refs: seq<RefEntry>, ids: seq<string>, caption: string, l: ApiLink)
    requires ids != []
    ensures l in SectionLinks(refs, ids, caption) <==>
            l in SectionLinks(refs, ids[..|ids| - 1], caption) || LinksTo(refs, ids[|ids| - 1], caption, l)
  {
  }

  /** A link of a section is exactly the link of one of its identifiers. */
  lemma {:induction false} SectionLinksMembers(refs: seq<RefEntry>, ids: seq<string>, caption: string, l: ApiLink)
    ensures l in SectionLinks(refs, ids, caption) <==> exists id :: id in ids && LinksTo(refs, id, caption, l)
    decreases |ids|
  {
    if ids != [] {
      SectionLinksMembers(refs, ids[..|ids| - 1], caption, l);
      SectionLinksSnoc(refs, ids, caption, l);
      ExistsSnoc(ids, id => LinksTo(refs, id, caption, l));
    }
  }

  /** A link of a run of sections is a link of the first three identifiers of one of them. */
  lemma {:induction false} SectionsLinksMembers(refs: seq<RefEntry>, sections: seq<Section>, prefix: string, l: ApiLink)
    ensures l in SectionsLinks(refs, sections, prefix) <==> exists s :: s in sections && l in SectionPart(refs, s, prefix)
    decreases |sections|
  {
    if sections != [] {
      SectionsLinksMembers(refs, sections[..|sections| - 1], prefix, l);
      assert SectionsLinks(refs, sections, prefix)
          == SectionsLinks(refs, sections[..|sections| - 1], prefix) + SectionPart(refs, sections[|sections| - 1], prefix);
      ExistsSnoc(sections, s => l in SectionPart(refs, s, prefix));
    }
  }

  /** The two membership lemmas together: a link comes from a section and one
      of its first three identifiers, which names a non-empty reference. */
  lemma SectionsLinksFrom(refs: seq<RefEntry>, sections: seq<Section>, prefix: string, l: ApiLink)
    ensures l in SectionsLinks(refs, sections, prefix) <==>
            exists s, id :: s in sections && id in Prefix(s.identifiers, MaxRelatedApisPerSection)
              && LinksTo(refs, id, SectionCaption(s, prefix), l)
  {
    SectionsLinksMembers(refs, sections, prefix, l);
    if l in SectionsLinks(refs, sections, prefix) {
      var s :| s in sections && l in SectionPart(refs, s, prefix);
      SectionLinksMembers(refs, Prefix(s.identifiers, MaxRelatedApisPerSection), SectionCaption(s, prefix), l);
    }
    if exists s, id :: s in sections && id in Prefix(s.identifiers, MaxRelatedApisPerSection)
         && LinksTo(refs, id, SectionCaption(s, prefix), l) {
      var s, id :| s in sections && id in Prefix(s.identifiers, MaxRelatedApisPerSection)
         && LinksTo(refs, id, SectionCaption(s, prefix), l);
      SectionLinksMembers(refs, Prefix(s.identifiers, MaxRelatedApisPerSection), SectionCaption(s, prefix), l);
    }
  }

  /** Every link of a section carries the section's caption and an absolute or
      non-path URL. */
  lemma {:induction false} SectionLinksShape(refs: seq<RefEntry>, ids: seq<string>, caption: string)
    ensures forall l :: l in SectionLinks(refs, ids, caption) ==> l.caption == caption && !StartsWith(l.url, "/")
    decreases |ids|
  {
    if ids != [] {
      SectionLinksShape(refs, ids[..|ids| - 1], caption);
    }
  }

  /** Every caption of a run of sections starts with the prefix, and no URL is site-relative. */
  lemma {:induction false} SectionsLinksShape(refs: seq<RefEntry>, sections: seq<Section>, prefix: string)
    ensures forall l :: l in SectionsLinks(refs, sections, prefix) ==> StartsWith(l.caption, prefix) && !StartsWith(l.url, "/")
    decreases |sections|
  {
    if sections != [] {
      var last := sections[|sections| - 1];
      SectionsLinksShape(refs, sections[..|sections| - 1], prefix);
      SectionLinksShape(refs, Prefix(last.identifiers, MaxRelatedApisPerSection), SectionCaption(last, prefix));
    }
  }

  /** At most ten related APIs; the relationship links come first, and
      everything after them is a see-also link with its prefix; no URL is left
      site-relative. */
  lemma RelatedApisCorrect(doc: Doc)
    ensures var r := RelatedApis(doc);
            var rel := SectionsLinks(doc.references, doc.relationshipsSections, "");
            && |r| <= MaxDocFetcherRelatedApis
            && (|rel| >= MaxDocFetcherRelatedApis ==> r == rel[..MaxDocFetcherRelatedApis])
            && (|rel| < MaxDocFetcherRelatedApis ==> r[..|rel|] == rel)
            && (forall i :: |rel| <= i < |r| ==> StartsWith(r[i].caption, SeeAlsoPrefix))
            && (forall i :: 0 <= i < |r| ==> !StartsWith(r[i].url, "/"))
  {
    var rel := SectionsLinks(doc.references, doc.relationshipsSections, "");
    var see := SectionsLinks(doc.references, doc.seeAlsoSections, SeeAlsoPrefix);
    var r := RelatedApis(doc);
    SectionsLinksShape(doc.references, doc.relationshipsSections, "");
    SectionsLinksShape(doc.references, doc.seeAlsoSections, SeeAlsoPrefix);
    PrefixOfLinks(rel, see, MaxDocFetcherRelatedApis);
  }

  /** The first `n` links of `a + b`, where no link has a site-relative URL and
      every link of `b` has the see-also prefix. */
  lemma PrefixOfLinks(a: seq<ApiLink>, b: seq<ApiLink>, n: nat)
    requires forall l :: l in a ==> !StartsWith(l.url, "/")
    requires forall l :: l in b ==> StartsWith(l.caption, SeeAlsoPrefix) && !StartsWith(l.url, "/")
    ensures var r := Prefix(a + b, n);
            && (|a| >= n ==> r == a[..n])
            && (|a| < n ==> r[..|a|] == a)
            && (forall i :: |a| <= i < |r| ==> StartsWith(r[i].caption, SeeAlsoPrefix))
            && (forall i :: 0 <= i < |r| ==> !StartsWith(r[i].url, "/"))
  {
    var r := Prefix(a + b, n);
    forall i | 0 <= i < |r|
      ensures !StartsWith(r[i].url, "/")
      ensures i >= |a| ==> StartsWith(r[i].caption, SeeAlsoPrefix)
    {
      if i < |a| {
        assert r[i] == a[i];
      } else {
        assert r[i] == b[i - |a|];
      }
    }
  }

  /** At most eight similar APIs, each from one of the first three identifiers
      of a topic section, labelled with that section's title. */
  lemma SimilarApisCorrect(doc: Doc, l: ApiLink)
    ensures |SimilarApis(doc)| <= MaxDocFetcherSimilarApis
    ensures l in SimilarApis(doc) ==>
              exists s, id :: s in doc.topicSections && id in Prefix(s.identifiers, MaxRelatedApisPerSection)
                && LinksTo(doc.references, id, s.title.GetOr("Related"), l)
  {
    if l in SimilarApis(doc) {
      assert l in SectionsLinks(doc.references, doc.topicSections, "");
      SectionsLinksFrom(doc.references, doc.topicSections, "", l);
      var s, id :| s in doc.topicSections && id in Prefix(s.identifiers, MaxRelatedApisPerSection)
         && LinksTo(doc.references, id, SectionCaption(s, ""), l);
      assert SectionCaption(s, "") == s.title.GetOr("Related");
    }
  }

  /** The inner loop: `for identifier in identifiers[:3]`, appending each found reference. */
  method AppendSectionLinks(refs: seq<RefEntry>, ids: seq<string>, caption: string, acc: seq<ApiLink>)
    returns (r: seq<ApiLink>)
    ensures r == acc + SectionLinks(refs, ids, caption)
  {
    r := acc;
    var j := 0;
    while j < |ids|
      invariant 0 <= j <= |ids|
      invariant r == acc + SectionLinks(refs, ids[..j], caption)
    {
      ghost var done := SectionLinks(refs, ids[..j], caption);
      SectionLinksStep(refs, ids, caption, j);
      var ref := Lookup(refs, ids[j]);
      if ref.Some? && Present(ref.value) {
        var link := [LinkOf(ref.value, caption)];
        assert SectionLinks(refs, ids[..j + 1], caption) == done + link;
        AppendAssoc(acc, done, link);
        r := r + link;
      } else {
        assert SectionLinks(refs, ids[..j + 1], caption) == done;
      }
      j := j + 1;
    }
    assert ids[..j] == ids;
  }

  lemma AppendAssoc(a: seq<ApiLink>, b: seq<ApiLink>, c: seq<ApiLink>)
    ensures (a + b) + c == a + (b + c)
  {
  }

  /** The outer loop over the sections. */
  method AppendSectionsLinks(refs: seq<RefEntry>, sections: seq<Section>, prefix: string, acc: seq<ApiLink>)
    returns (r: seq<ApiLink>)
    ensures r == acc + SectionsLinks(refs, sections, prefix)
  {
    r := acc;
    var j := 0;
    while j < |sections|
      invariant 0 <= j <= |sections|
      invariant r == acc + SectionsLinks(refs, sections[..j], prefix)
    {
      ghost var done := SectionsLinks(refs, sections[..j], prefix);
      SectionsLinksStep(refs, sections, prefix, j);
      var section := sections[j];
      ghost var part := SectionPart(refs, section, prefix);
      r := AppendSectionLinks(refs, Prefix(section.identifiers, MaxRelatedApisPerSection), SectionCaption(section, prefix), r);
      assert r == (acc + done) + part;
      AppendAssoc(acc, done, part);
      j := j + 1;
    }
    assert sections[..j] == sections;
  }

  /** `extract_related_apis`. */
  method ExtractRelatedApis(doc: Doc) returns (r: seq<ApiLink>)
    ensures r == RelatedApis(doc)
  {
    ghost var rel := SectionsLinks(doc.references, doc.relationshipsSections, "");
    var related := AppendSectionsLinks(doc.references, doc.relationshipsSections, "", []);
    assert related == rel;
    related := AppendSectionsLinks(doc.references, doc.seeAlsoSections, SeeAlsoPrefix, related);
    r := Prefix(related, MaxDocFetcherRelatedApis);
  }

  /** `extract_similar_apis`. */
  method ExtractSimilarApis(doc: Doc) returns (r: seq<ApiLink>)
    ensures r == SimilarApis(doc)
  {
    ghost var links := SectionsLinks(doc.references, doc.topicSections, "");
    var similar := AppendSectionsLinks(doc.references, doc.topicSections, "", []);
    assert similar == links;
    r := Prefix(similar, MaxDocFetcherSimilarApis);
  }

  // ---------------------------------------------------------------------------
  // extract_references

  /** One extracted reference; `refType` is the `type` key. */
  datatype ReferenceInfo = ReferenceInfo(title: string, url: string, refType: string, summary: string)

  /** `ref.get("role", ref.get("kind", "unknown"))`. */
  function RefType(ref: Reference): string {
    match ref.role
    case Some(role) => role
    case None => ref.kind.GetOr("unknown")
  }

  /** The abstract texts joined by spaces and stripped; "" without an abstract. */
  function RefSummary(ref: Reference): (a: string)
    ensures a == [] || (!IsSpace(a[0]) && !IsSpace(a[|a| - 1]))
  {
    if ref.abstractItems == [] then "" else Strip(Join(" ", Texts(ref.abstractItems)))
  }

  function ReferenceInfoOf(ref: Reference): ReferenceInfo {
    ReferenceInfo(ref.title.GetOr("Unknown"), SiteUrl(ref.url.GetOr("#")), RefType(ref), RefSummary(ref))
  }

  function ReferenceInfos(entries: seq<RefEntry>): (r: seq<ReferenceInfo>)
    ensures |r| == |entries|
  {
    seq(|entries|, i requires 0 <= i < |entries| => ReferenceInfoOf(entries[i].ref))
  }

  /** `extract_references`: the first fifteen entries of `references`, in order. */
  function References(doc: Doc): seq<ReferenceInfo> {
    ReferenceInfos(Prefix(doc.references, MaxDocFetcherReferences))
  }

  /** One extracted reference per entry, up to fifteen, in document order; the
      type is the role, else the kind, else "unknown"; the abstract has no
      surrounding whitespace. */
  lemma ReferencesCorrect(doc: Doc)
    ensures var r := References(doc);
            && |r| == (if |doc.references| < MaxDocFetcherReferences then |doc.references| else MaxDocFetcherReferences)
            && forall i :: 0 <= i < |r| ==>
                 var ref := doc.references[i].ref;
                 && r[i].title == ref.title.GetOr("Unknown")
                 && (ref.role.Some? ==> r[i].refType == ref.role.value)
                 && (ref.role.None? && ref.kind.Some? ==> r[i].refType == ref.kind.value)
                 && (ref.role.None? && ref.kind.None? ==> r[i].refType == "unknown")
                 && !StartsWith(r[i].url, "/")
                 && (r[i].summary == [] || !IsSpace(r[i].summary[0]))
  {
  }

  lemma ReferenceInfosStep(entries: seq<RefEntry>, j: nat)
    requires j < |entries|
    ensures ReferenceInfos(entries[..j + 1]) == ReferenceInfos(entries[..j]) + [ReferenceInfoOf(entries[j].ref)]
  {
    assert entries[..j + 1][..j] == entries[..j];
  }

  /** The loop of `extract_references`. */
  method ExtractReferences(doc: Doc) returns (r: seq<ReferenceInfo>)
    ensures r == References(doc)
  {
    var entries := Prefix(doc.references, MaxDocFetcherReferences);
    r := [];
    var j := 0;
    while j < |entries|
      invariant 0 <= j <= |entries|
      invariant r == ReferenceInfos(entries[..j])
    {
      var ref := entries[j].ref;
      var summary := "";
      if ref.abstractItems != [] {
        summary := Strip(Join(" ", Texts(ref.abstractItems)));
      }
      ReferenceInfosStep(entries, j);
      r := r + [ReferenceInfo(ref.title.GetOr("Unknown"), SiteUrl(ref.url.GetOr("#")), RefType(ref), summary)];
      j := j + 1;
    }
    assert entries[..j] == entries;
  }

  // ---------------------------------------------------------------------------
  // analyze_platform_compatibility

  datatype PlatformAnalysis = PlatformAnalysis(
    supportedPlatforms: string,
    betaPlatforms: seq<string>,
    deprecatedPlatforms: seq<string>,
    crossPlatform: bool,
    platforms: seq<Platform>)

  function IsBeta(): Platform -> bool {
    (p: Platform) => p.beta
  }

  function IsDeprecated(): Platform -> bool {
    (p: Platform) => p.deprecated
  }

  /** `[p.get("name") for p in platforms if flag(p) and p.get("name")]`. */
  function NamesWhere(platforms: seq<Platform>, flag: Platform -> bool): (r: seq<string>)
    ensures |r| <= |platforms|
    ensures forall n :: n in r <==> exists p :: p in platforms && flag(p) && Truthy(p.name) && n == p.name.value
    decreases |platforms|
  {
    if platforms == [] then []
    else
      var p := platforms[0];
      var rest := NamesWhere(platforms[1..], flag);
      assert forall q :: q in platforms <==> q == p || q in platforms[1..];
      (if flag(p) && Truthy(p.name) then [p.name.value] else []) + rest
  }

  function PlatformNames(platforms: seq<Platform>): (r: seq<string>)
    ensures |r| == |platforms|
  {
    seq(|platforms|, i requires 0 <= i < |platforms| => platforms[i].name.GetOr(""))
  }

  /** `analyze_platform_compatibility`: nothing without platforms; otherwise the
      names joined by ", ", the named beta and deprecated platforms, and whether
      there is more than one platform. */
  function AnalyzePlatformCompatibility(doc: Doc): (r: Option<PlatformAnalysis>)
    ensures r.None? <==> doc.metadata.platforms == []
    ensures r.Some? ==> (r.value.crossPlatform <==> |doc.metadata.platforms| > 1)
    ensures r.Some? ==> r.value.platforms == doc.metadata.platforms
    ensures r.Some? ==> forall n :: n in r.value.betaPlatforms <==>
              exists p :: p in doc.metadata.platforms && p.beta && Truthy(p.name) && n == p.name.value
    ensures r.Some? ==> forall n :: n in r.value.deprecatedPlatforms <==>
              exists p :: p in doc.metadata.platforms && p.deprecated && Truthy(p.name) && n == p.name.value
  {
    var platforms := doc.metadata.platforms;
    if platforms == [] then None
    else
      Some(PlatformAnalysis(
        Join(", ", PlatformNames(platforms)),
        NamesWhere(platforms, IsBeta()),
        NamesWhere(platforms, IsDeprecated()),
        |platforms| > 1,
        platforms))
  }

  /** A single platform is supported under its own name, and is not cross-platform. */
  lemma SinglePlatform(doc: Doc)
    requires |doc.metadata.platforms| == 1
    ensures var r := AnalyzePlatformCompatibility(doc);
            r.Some? && r.value.supportedPlatforms == doc.metadata.platforms[0].name.GetOr("") && !r.value.crossPlatform
  {
  }

  // ---------------------------------------------------------------------------
  // fetch_apple_doc_json: URL checks and following the first reference

  const InvalidDocumentationUrl := "Invalid Apple Developer Documentation URL"

  /** A page to format: the document and the URL it is shown under. */
  datatype Page = Page(doc: Doc, url: string)

  /** The outcome of a fetch, and the JSON URLs requested, in order. */
  datatype Fetched = Fetched(outcome: Result<Page, string>, requests: seq<string>)

  /** The `url` of the first reference, when it is set and not empty. */
  function FirstReferenceUrl(doc: Doc): Option<string> {
    if doc.references == [] then None
    else
      var u := doc.references[0].ref.url;
      if Truthy(u) then Some(u.value) else None
  }

  /** The JSON URL of a reference path. */
  function ReferenceJsonUrl(refPath: string): string {
    DocumentationJsonBase + DocumentationPath(refPath) + ".json"
  }

  /** No primary content, some references and depth left: follow the first reference. */
  predicate FollowsReference(doc: Doc, maxDepth: int) {
    doc.primaryContentSections == [] && doc.references != [] && maxDepth > 0 && FirstReferenceUrl(doc).Some?
  }

  /** The URL requested for `u`, when there is one: a JSON URL as it is, any other converted. */
  function ApiUrl(u: Url): Option<string> {
    if Contains(u.text, ".json") then Some(u.text) else ConvertToJsonApiUrl(u)
  }

  /** `fetch_apple_doc_json`, with `get_json` as `server`: a URL off the site is
      rejected, a JSON URL is fetched as it is and any other is converted; a
      page without primary content is replaced by the page of its first
      reference while the depth lasts. The followed URL contains ".json", so
      its parsed parts are never consulted; they are given as the site and the
      JSON path. */
  function FetchAppleDocJson(u: Url, maxDepth: int, server: string -> Result<Doc, string>): (r: Fetched)
    ensures |r.requests| <= (if maxDepth > 0 then maxDepth else 0) + 1
    decreases if maxDepth > 0 then maxDepth else 0
  {
    if !Contains(u.text, AppleHost) then Fetched(Failure(InvalidUrl), [])
    else
      var api := ApiUrl(u);
      if api.None? then Fetched(Failure(InvalidDocumentationUrl), [])
      else
        match server(api.value)
        case Failure(e) => Fetched(Failure(e), [api.value])
        case Success(doc) =>
          if FollowsReference(doc, maxDepth) then
            var next := ReferenceJsonUrl(FirstReferenceUrl(doc).value);
            var rest := FetchAppleDocJson(Url(next, AppleHost, next[|BaseUrl|..]), maxDepth - 1, server);
            Fetched(rest.outcome, [api.value] + rest.requests)
          else Fetched(Success(Page(doc, u.text)), [api.value])
  }

  /** A followed reference URL is on the site and is a JSON URL. */
  lemma ReferenceJsonUrlAccepted(refPath: string)
    ensures Contains(ReferenceJsonUrl(refPath), AppleHost)
    ensures Contains(ReferenceJsonUrl(refPath), ".json")
    ensures StartsWith(ReferenceJsonUrl(refPath), DocumentationJsonBase)
    ensures EndsWith(ReferenceJsonUrl(refPath), ".json")
  {
    var s := ReferenceJsonUrl(refPath);
    assert s[..|DocumentationJsonBase|] == DocumentationJsonBase;
    assert DocumentationJsonBase[8..8 + |AppleHost|] == AppleHost;
    assert s[8..8 + |AppleHost|] == AppleHost;
    assert StartsWith(s[8..8 + |AppleHost|], AppleHost);
    ContainsSlice(s, 8, 8 + |AppleHost|, AppleHost);
    assert s[|s| - 5..][..5] == ".json";
    ContainsSlice(s, |s| - 5, |s|, ".json");
  }

  /** A JSON URL on the site is requested first, as it is. */
  lemma FetchFirstRequest(u: Url, maxDepth: int, server: string -> Result<Doc, string>)
    requires Contains(u.text, AppleHost) && Contains(u.text, ".json")
    ensures var r := FetchAppleDocJson(u, maxDepth, server);
            |r.requests| >= 1 && r.requests[0] == u.text
  {
  }

  /** A URL off the site is rejected without any request. */
  lemma FetchOffSite(u: Url, maxDepth: int, server: string -> Result<Doc, string>)
    requires !Contains(u.text, AppleHost)
    ensures FetchAppleDocJson(u, maxDepth, server) == Fetched(Failure(InvalidUrl), [])
  {
  }

  /** Without a reference to follow there is at most one request. */
  lemma FetchStops(u: Url, maxDepth: int, server: string -> Result<Doc, string>)
    requires !(Contains(u.text, AppleHost) && ApiUrl(u).Some? && server(ApiUrl(u).value).Success?
               && FollowsReference(server(ApiUrl(u).value).value, maxDepth))
    ensures |FetchAppleDocJson(u, maxDepth, server).requests| <= 1
  {
  }

  /** A request for a page of the documentation JSON API. */
  predicate JsonRequest(url: string) {
    StartsWith(url, DocumentationJsonBase) && EndsWith(url, ".json")
  }

  lemma AllAfterFirst(requests: seq<string>, first: string, rest: seq<string>)
    requires requests == [first] + rest
    requires forall j :: 0 <= j < |rest| ==> JsonRequest(rest[j])
    ensures forall i :: 1 <= i < |requests| ==> JsonRequest(requests[i])
  {
    forall i | 1 <= i < |requests| ensures JsonRequest(requests[i]) {
      assert requests[i] == rest[i - 1];
    }
  }

  /** A followed reference URL: on the site, a JSON URL, under the JSON base. */
  predicate FollowedUrl(v: Url) {
    Contains(v.text, AppleHost) && Contains(v.text, ".json") && JsonRequest(v.text)
  }

  /** Following a reference: the requests are the page's own and then those of
      a followed reference URL. */
  lemma FetchFollows(u: Url, maxDepth: int, server: string -> Result<Doc, string>)
    requires Contains(u.text, AppleHost) && ApiUrl(u).Some?
    requires server(ApiUrl(u).value).Success? && FollowsReference(server(ApiUrl(u).value).value, maxDepth)
    ensures exists v :: FollowedUrl(v) &&
              FetchAppleDocJson(u, maxDepth, server).requests
              == [ApiUrl(u).value] + FetchAppleDocJson(v, maxDepth - 1, server).requests
  {
    var refPath := FirstReferenceUrl(server(ApiUrl(u).value).value).value;
    var next := ReferenceJsonUrl(refPath);
    ReferenceJsonUrlAccepted(refPath);
    var v := Url(next, AppleHost, next[|BaseUrl|..]);
    assert FollowedUrl(v);
  }

  /** Every request after the first is the JSON URL of a followed reference, and
      a URL off the site is rejected without any request. */
  lemma {:induction false} FetchRequests(u: Url, maxDepth: int, server: string -> Result<Doc, string>)
    ensures var r := FetchAppleDocJson(u, maxDepth, server);
            && (!Contains(u.text, AppleHost) ==> r == Fetched(Failure(InvalidUrl), []))
            && (forall i :: 1 <= i < |r.requests| ==> JsonRequest(r.requests[i]))
    decreases if maxDepth > 0 then maxDepth else 0
  {
    var r := FetchAppleDocJson(u, maxDepth, server);
    var api := ApiUrl(u);
    if !Contains(u.text, AppleHost) {
      FetchOffSite(u, maxDepth, server);
    } else if !(api.Some? && server(api.value).Success? && FollowsReference(server(api.value).value, maxDepth)) {
      FetchStops(u, maxDepth, server);
    } else {
      FetchFollows(u, maxDepth, server);
      var v :| FollowedUrl(v) && r.requests == [api.value] + FetchAppleDocJson(v, maxDepth - 1, server).requests;
      FetchRequests(v, maxDepth - 1, server);
      FetchFirstRequest(v, maxDepth - 1, server);
      var rest := FetchAppleDocJson(v, maxDepth - 1, server).requests;
      assert JsonRequest(rest[0]);
      assert forall j :: 0 <= j < |rest| ==> JsonRequest(rest[j]);
      AllAfterFirst(r.requests, api.value, rest);
    }
  }
}
