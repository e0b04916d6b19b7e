/** The documentation search tool: the result entries of Apple's search page,
    each read into a title, an absolute URL, a category (with its framework)
    and a description, filtered by type, capped, and grouped by category. The
    page itself is a parameter: the entries its HTML holds, or the error of
    fetching it. */
module Search {
  import opened Wrappers
  import opened PyStr
  import opened PySeq
  import opened Constants
  import opened OrderedDict
  import opened Formatter

  /** `SearchResult`. */
  datatype SearchResult = SearchResult(title: string, url: string, category: string, description: string)

  /** The title link of an entry: its `href` when it is a string, and its text. */
  datatype TitleLink = TitleLink(href: Option<string>, text: string)

  /** One `.search-result` element: its title link, the stripped texts of its
      category and description elements when present, and the stripped texts
      of its breadcrumbs. */
  datatype Entry = Entry(
    link: Option<TitleLink>,
    category: Option<string>,
    description: Option<string>,
    breadcrumbs: seq<string>)

  // ---------------------------------------------------------------------------
  // extract_framework

  const DocumentationSegment := "/documentation/"

  /** `extract_framework`: the first breadcrumb up to its first ">", stripped;
      otherwise the URL segment after "/documentation/", capitalized. */
  function ExtractFramework(e: Entry, url: string): Option<string> {
    if e.breadcrumbs != [] then
      Some(Strip(Split(e.breadcrumbs[0], '>')[0]))
    else if Contains(url, DocumentationSegment) then
      var parts := SplitOn(url, DocumentationSegment);
      if |parts| > 1 then Some(Capitalize(Split(parts[1], '/')[0])) else None
    else None
  }

  /** Splitting after a run in which the separator does not start keeps the
      run at the front of the first piece. */
  lemma {:induction false} SplitOnFreeRun(a: string, s: string, sep: string)
    requires sep != []
    requires forall i :: 0 <= i < |a| ==> !StartsWith((a + s)[i..], sep)
    ensures SplitOn(a + s, sep)[0] == a + SplitOn(s, sep)[0]
    ensures SplitOn(a + s, sep)[1..] == SplitOn(s, sep)[1..]
    decreases |a|
  {
    if a != [] {
      var t := a + s;
      assert !StartsWith(t[0..], sep);
      assert t[0..] == t;
      assert t[1..] == a[1..] + s;
      forall i | 0 <= i < |a[1..]| ensures !StartsWith((a[1..] + s)[i..], sep) {
        assert (a[1..] + s)[i..] == t[i + 1..];
      }
      SplitOnFreeRun(a[1..], s, sep);
      assert [a[0]] + a[1..] == a;
    } else {
      assert a + s == s;
    }
  }

  /** The first piece of a split is empty or starts like the string. */
  lemma SplitOnFirstStart(s: string, sep: string)
    requires sep != []
    ensures var p := SplitOn(s, sep)[0];
            p == [] || (s != [] && p[0] == s[0])
  {
  }

  /** The piece after the first "/documentation/" is the text up to the next one. */
  lemma AfterDocumentation(url: string, before: string, after: string)
    requires url == before + DocumentationSegment + after
    requires forall i :: 0 <= i < |before| ==> !StartsWith(url[i..], DocumentationSegment)
    ensures Contains(url, DocumentationSegment)
    ensures |SplitOn(url, DocumentationSegment)| > 1
    ensures SplitOn(url, DocumentationSegment)[1] == SplitOn(after, DocumentationSegment)[0]
  {
    var sep := DocumentationSegment;
    assert url == before + (sep + after);
    assert url[|before|..|before| + |sep|] == sep;
    ContainsSlice(url, |before|, |before| + |sep|, sep);
    SplitOnFreeRun(before, sep + after, sep);
    assert (sep + after)[..|sep|] == sep;
    assert (sep + after)[|sep|..] == after;
  }

  /** No "/documentation/" starts inside a segment without "/". */
  lemma SegmentFree(seg: string, rest: string)
    requires '/' !in seg
    ensures forall i :: 0 <= i < |seg| ==> !StartsWith((seg + rest)[i..], DocumentationSegment)
  {
    forall i | 0 <= i < |seg| ensures !StartsWith((seg + rest)[i..], DocumentationSegment) {
      assert (seg + rest)[i..][0] == seg[i];
      assert seg[i] in seg;
    }
  }

  /** A segment without "/" followed by "/" or nothing is the first "/"-piece
      of what follows "/documentation/". */
  lemma SegmentPiece(seg: string, rest: string)
    requires '/' !in seg
    requires rest == [] || rest[0] == '/'
    ensures Split(SplitOn(seg + rest, DocumentationSegment)[0], '/')[0] == seg
  {
    var sep := DocumentationSegment;
    SegmentFree(seg, rest);
    SplitOnFreeRun(seg, rest, sep);
    SplitOnFirstStart(rest, sep);
    SlashPiece(seg, SplitOn(rest, sep)[0]);
  }

  /** A piece without "/" followed by "/" or nothing is the first "/"-piece. */
  lemma SlashPiece(seg: string, tail: string)
    requires '/' !in seg
    requires tail == [] || tail[0] == '/'
    ensures Split(seg + tail, '/')[0] == seg
  {
    if tail == [] {
      assert seg + tail == seg;
      SplitFree(seg, '/');
    } else {
      assert seg + tail == seg + ['/'] + tail[1..];
      SplitFirstPiece(seg, '/', tail[1..]);
    }
  }

  /** Without breadcrumbs, a URL whose first "/documentation/" is followed by a
      segment `seg` and then "/" or nothing gives the capitalized segment. */
  lemma UrlFramework(e: Entry, before: string, seg: string, rest: string)
    requires e.breadcrumbs == []
    requires forall i :: 0 <= i < |before| ==>
               !StartsWith((before + DocumentationSegment + seg + rest)[i..], DocumentationSegment)
    requires '/' !in seg
    requires rest == [] || rest[0] == '/'
    ensures ExtractFramework(e, before + DocumentationSegment + seg + rest) == Some(Capitalize(seg))
  {
    var url := before + DocumentationSegment + seg + rest;
    assert url == before + DocumentationSegment + (seg + rest);
    AfterDocumentation(url, before, seg + rest);
    SegmentPiece(seg, rest);
  }

  // ---------------------------------------------------------------------------
  // parse_search_result

  /** The type filter: none for "all", the type itself otherwise. */
  function FilterType(kind: string): Option<string> {
    if kind == "all" then None else Some(kind)
  }

  /** A site-relative link gets the developer site in front. */
  function AbsoluteUrl(href: string): string {
    if StartsWith(href, "/") then BaseUrl + href else href
  }

  /** The category with the framework in parentheses when there is one. */
  function Category(e: Entry, url: string): string {
    var category := e.category.GetOr("Unknown");
    var framework := ExtractFramework(e, url);
    if framework.Some? && framework.value != "" then category + " (" + framework.value + ")" else category
  }

  /** A non-empty filter keeps the categories it is a case-insensitive part of. */
  predicate PassesFilter(category: string, filter: Option<string>) {
    filter.None? || filter.value == "" || Contains(Lower(category), Lower(filter.value))
  }

  /** `parse_search_result`: nothing without a title link or a non-empty
      `href`, or when the category fails the filter. */
  function ParseEntry(e: Entry, filter: Option<string>): (r: Option<SearchResult>)
    ensures r.Some? ==> PassesFilter(r.value.category, filter)
  {
    match e.link
    case None => None
    case Some(link) =>
      match link.href
      case None => None
      case Some(href) =>
        if href == "" then None
        else
          var url := AbsoluteUrl(href);
          var category := Category(e, url);
          if !PassesFilter(category, filter) then None
          else Some(SearchResult(link.text, url, category, e.description.GetOr("")))
  }

  /** An entry is read exactly when it has a non-empty link and its category
      passes the filter; its URL is the link made absolute, its category that
      of the entry (default "Unknown") followed by ` (Framework)` when a
      non-empty framework is found, its description
      the entry's (default ""). */
  lemma ParseEntryCorrect(e: Entry, filter: Option<string>)
    ensures var r := ParseEntry(e, filter);
            r.Some? <==> (e.link.Some? && e.link.value.href.Some? && e.link.value.href.value != ""
                          && PassesFilter(Category(e, AbsoluteUrl(e.link.value.href.value)), filter))
    ensures var r := ParseEntry(e, filter);
            r.Some? ==>
              var href := e.link.value.href.value;
              && r.value.title == e.link.value.text
              && r.value.url == AbsoluteUrl(href)
              && (StartsWith(href, "/") ==> r.value.url == BaseUrl + href)
              && (!StartsWith(href, "/") ==> r.value.url == href)
              && StartsWith(r.value.category, e.category.GetOr("Unknown"))
              && r.value.category == Category(e, AbsoluteUrl(href))
              && (var fw := ExtractFramework(e, AbsoluteUrl(href));
                  && (fw.Some? && fw.value != "" ==> r.value.category == e.category.GetOr("Unknown") + " (" + fw.value + ")")
                  && (fw.None? || fw.value == "" ==> r.value.category == e.category.GetOr("Unknown")))
              && r.value.description == e.description.GetOr("")
  {
    var r := ParseEntry(e, filter);
    if r.Some? {
      var url := AbsoluteUrl(e.link.value.href.value);
      var c := e.category.GetOr("Unknown");
      var framework := ExtractFramework(e, url);
      if framework.Some? && framework.value != "" {
        assert (c + " (" + framework.value + ")")[..|c|] == c;
      }
    }
  }

  // ---------------------------------------------------------------------------
  // search_apple_docs: the capped collection loop

  /** Every entry's parse, in page order. */
  function ParsedEntries(es: seq<Entry>, filter: Option<string>): seq<SearchResult>
    decreases |es|
  {
    if es == [] then []
    else
      var last := ParseEntry(es[|es| - 1], filter);
      ParsedEntries(es[..|es| - 1], filter) + (if last.Some? then [last.value] else [])
  }

  lemma ParsedEntriesStep(es: seq<Entry>, filter: Option<string>, i: nat)
    requires i < |es|
    ensures var r := ParseEntry(es[i], filter);
            ParsedEntries(es[..i + 1], filter) == ParsedEntries(es[..i], filter) + (if r.Some? then [r.value] else [])
  {
    assert es[..i + 1][..i] == es[..i];
  }

  /** Parsing a longer page only adds results at the end. */
  lemma {:induction false} ParsedEntriesPrefix(es: seq<Entry>, filter: Option<string>, i: nat)
    requires i <= |es|
    ensures |ParsedEntries(es[..i], filter)| <= |ParsedEntries(es, filter)|
    ensures ParsedEntries(es, filter)[..|ParsedEntries(es[..i], filter)|] == ParsedEntries(es[..i], filter)
    decreases |es| - i
  {
    if i == |es| {
      assert es[..i] == es;
    } else {
      ParsedEntriesPrefix(es, filter, i + 1);
      ParsedEntriesStep(es, filter, i);
      var a := ParsedEntries(es[..i], filter);
      var b := ParsedEntries(es[..i + 1], filter);
      assert b[..|a|] == a;
      assert ParsedEntries(es, filter)[..|a|] == b[..|a|];
    }
  }

  /** The results the search keeps: the first `MAX_SEARCH_RESULTS` parses. */
  function SearchResults(es: seq<Entry>, filter: Option<string>): seq<SearchResult> {
    Prefix(ParsedEntries(es, filter), MaxSearchResults)
  }

  /** The loop of `search_apple_docs`: it stops reading entries once it holds
      `MAX_SEARCH_RESULTS` results. */
  method CollectResults(es: seq<Entry>, filter: Option<string>) returns (results: seq<SearchResult>)
    ensures results == SearchResults(es, filter)
  {
    results := [];
    var i := 0;
    while i < |es|
      invariant 0 <= i <= |es|
      invariant results == ParsedEntries(es[..i], filter)
      invariant |results| <= MaxSearchResults
    {
      if |results| >= MaxSearchResults {
        SearchResultsStop(es, filter, i);
        return;
      }
      var r := ParseEntry(es[i], filter);
      ParsedEntriesStep(es, filter, i);
      if r.Some? {
        results := results + [r.value];
      }
      i := i + 1;
    }
    SearchResultsAll(es, filter);
  }

  /** Once a prefix of the page has `MAX_SEARCH_RESULTS` results, they are the results. */
  lemma SearchResultsStop(es: seq<Entry>, filter: Option<string>, i: nat)
    requires i <= |es| && |ParsedEntries(es[..i], filter)| == MaxSearchResults
    ensures SearchResults(es, filter) == ParsedEntries(es[..i], filter)
  {
    ParsedEntriesPrefix(es, filter, i);
  }

  /** A page with at most `MAX_SEARCH_RESULTS` results keeps them all. */
  lemma SearchResultsAll(es: seq<Entry>, filter: Option<string>)
    requires |ParsedEntries(es[..|es|], filter)| <= MaxSearchResults
    ensures SearchResults(es, filter) == ParsedEntries(es[..|es|], filter)
  {
    assert es[..|es|] == es;
  }

  /** At most `MAX_SEARCH_RESULTS` results, each passing the filter, in page
      order; a page with fewer parses keeps them all. */
  lemma {:induction false} SearchResultsCorrect(es: seq<Entry>, filter: Option<string>)
    ensures var rs := SearchResults(es, filter);
            && |rs| <= MaxSearchResults
            && (forall i :: 0 <= i < |rs| ==> PassesFilter(rs[i].category, filter))
            && IsSubseq(rs, ParsedEntries(es, filter))
            && (|ParsedEntries(es, filter)| <= MaxSearchResults ==> rs == ParsedEntries(es, filter))
  {
    ParsedPass(es, filter);
    PrefixIsSubseq(ParsedEntries(es, filter), MaxSearchResults);
  }

  lemma {:induction false} ParsedPass(es: seq<Entry>, filter: Option<string>)
    ensures forall i :: 0 <= i < |ParsedEntries(es, filter)| ==> PassesFilter(ParsedEntries(es, filter)[i].category, filter)
    decreases |es|
  {
    if es != [] {
      ParsedPass(es[..|es| - 1], filter);
    }
  }

  // ---------------------------------------------------------------------------
  // format_search_results

  function NoResultsText(query: string): string {
    "No documentation found for \"" + query + "\".\n\n"
    + "Try searching WWDC videos using `search_wwdc_content` tool, "
    + "or browse topics with `browse_wwdc_topics`."
  }

  function ResultCategory(): SearchResult -> string {
    (r: SearchResult) => r.category
  }

  datatype CategoryGroup = CategoryGroup(category: string, results: seq<SearchResult>)

  /** The categories in ascending order, each with its results in input order. */
  function CategoryGroups(results: seq<SearchResult>): (gs: seq<CategoryGroup>)
    ensures |gs| == |SortBy(GroupKeys(results, ResultCategory()), StrLe)|
  {
    var cats := SortBy(GroupKeys(results, ResultCategory()), StrLe);
    seq(|cats|, k requires 0 <= k < |cats| =>
      CategoryGroup(cats[k], Filter(results, KeyIs(ResultCategory(), cats[k]))))
  }

  lemma StrLePreorder()
    ensures TotalPreorder(StrLe)
  {
    forall a, b ensures StrLe(a, b) || StrLe(b, a) {
      StrLeTotal(a, b);
    }
    forall a, b, c | StrLe(a, b) && StrLe(b, c) ensures StrLe(a, c) {
      StrLeTrans(a, b, c);
    }
  }

  /** The categories come in strictly ascending order; each group holds
      exactly the results of its category in input order and is not empty;
      every result is in the group of its category. */
  lemma CategoryGroupsCorrect(results: seq<SearchResult>)
    ensures var gs := CategoryGroups(results);
            && (forall i, j :: 0 <= i < j < |gs| ==> StrLe(gs[i].category, gs[j].category) && gs[i].category != gs[j].category)
            && (forall i :: 0 <= i < |gs| ==>
                  gs[i].results == Filter(results, KeyIs(ResultCategory(), gs[i].category)) && gs[i].results != [])
            && (forall r :: r in results ==> exists i :: 0 <= i < |gs| && gs[i].category == r.category && r in gs[i].results)
  {
    var cats := SortBy(GroupKeys(results, ResultCategory()), StrLe);
    var gs := CategoryGroups(results);
    StrLePreorder();
    SortedKeysCorrect(results, ResultCategory(), StrLe);
    forall i, j | 0 <= i < j < |gs| ensures StrLe(gs[i].category, gs[j].category) && gs[i].category != gs[j].category {
      assert StrLe(cats[i], cats[j]);
    }
    forall r | r in results ensures exists i :: 0 <= i < |gs| && gs[i].category == r.category && r in gs[i].results {
      assert ResultCategory()(r) in cats;
      var i :| 0 <= i < |cats| && cats[i] == r.category;
      FilterMembers(results, KeyIs(ResultCategory(), r.category), r);
      assert gs[i].category == r.category;
    }
  }

  /** The grouping loops of `format_search_results`: a dict from category to
      results, then its keys sorted. */
  method GroupByCategory(results: seq<SearchResult>) returns (groups: seq<CategoryGroup>)
    ensures groups == CategoryGroups(results)
  {
    var d := GroupBy(results, ResultCategory());
    var cats := SortBy(d.keys, StrLe);
    SortedCategoriesPresent(d);
    groups := GroupsInOrder(cats, d.values);
    GroupsInOrderCorrect(results, d, groups);
  }

  /** The `for category in sorted(grouped.keys())` loop: one group per
      category, in the given order, holding that category's bucket. */
  method GroupsInOrder(cats: seq<string>, buckets: map<string, seq<SearchResult>>) returns (groups: seq<CategoryGroup>)
    requires forall c :: c in cats ==> c in buckets
    ensures |groups| == |cats|
    ensures forall k :: 0 <= k < |cats| ==> groups[k] == CategoryGroup(cats[k], buckets[cats[k]])
  {
    groups := [];
    var j := 0;
    while j < |cats|
      invariant 0 <= j <= |cats|
      invariant |groups| == j
      invariant forall k :: 0 <= k < j ==> groups[k] == CategoryGroup(cats[k], buckets[cats[k]])
    {
      groups := groups + [CategoryGroup(cats[j], buckets[cats[j]])];
      j := j + 1;
    }
  }

  lemma GroupsInOrderCorrect(results: seq<SearchResult>, d: Dict<string, seq<SearchResult>>, groups: seq<CategoryGroup>)
    requires d.keys == GroupKeys(results, ResultCategory())
    requires forall k :: k in d.values ==> d.values[k] == Filter(results, KeyIs(ResultCategory(), k))
    requires forall c :: c in SortBy(d.keys, StrLe) ==> c in d.values
    requires |groups| == |SortBy(d.keys, StrLe)|
    requires forall k :: 0 <= k < |groups| ==>
               groups[k] == CategoryGroup(SortBy(d.keys, StrLe)[k], d.values[SortBy(d.keys, StrLe)[k]])
    ensures groups == CategoryGroups(results)
  {
    forall k | 0 <= k < |groups| ensures groups[k] == CategoryGroups(results)[k] {
      CategoryGroupAt(results, d, k);
    }
  }

  /** The `j`-th group built from the grouped dictionary is the `j`-th group of the specification. */
  lemma CategoryGroupAt(results: seq<SearchResult>, d: Dict<string, seq<SearchResult>>, j: nat)
    requires d.keys == GroupKeys(results, ResultCategory())
    requires forall k :: k in d.values ==> d.values[k] == Filter(results, KeyIs(ResultCategory(), k))
    requires forall c :: c in SortBy(d.keys, StrLe) ==> c in d.values
    requires j < |SortBy(d.keys, StrLe)|
    ensures var c := SortBy(d.keys, StrLe)[j];
            c in d.values && CategoryGroup(c, d.values[c]) == CategoryGroups(results)[j]
  {
  }

  /** Every sorted category is a key of the dict it was taken from. */
  lemma SortedCategoriesPresent(d: Dict<string, seq<SearchResult>>)
    requires d.Valid()
    ensures forall c :: c in SortBy(d.keys, StrLe) ==> c in d.values
  {
    StrLePreorder();
    SortByCorrect(d.keys, StrLe);
    forall c | c in SortBy(d.keys, StrLe) ensures c in d.values {
      assert c in multiset(SortBy(d.keys, StrLe));
    }
  }

  /** A result's link line and, when it has one, its indented description. */
  function ResultLines(r: SearchResult): string {
    Line("- [" + r.title + "](" + r.url + ")")
    + (if r.description != "" then Line("  " + r.description) else "")
  }

  function GroupMarkdown(g: CategoryGroup): string {
    H2(g.category) + ConcatMap(g.results, ResultLines) + "\n"
  }

  function ResultsHeading(query: string, count: nat): string {
    "# Search Results for \"" + query + "\"\n\n" + "Found " + NatToString(count) + " results:\n\n"
  }

  /** `format_search_results`. */
  function FormatSearchResults(results: seq<SearchResult>, query: string): string {
    if results == [] then NoResultsText(query)
    else ResultsHeading(query, |results|) + ConcatMap(CategoryGroups(results), GroupMarkdown)
  }

  /** The suggestion text stands exactly for an empty result list; otherwise
      the text opens with the query and the number of results. */
  lemma FormatSearchResultsShape(results: seq<SearchResult>, query: string)
    ensures var r := FormatSearchResults(results, query);
            && (r == NoResultsText(query) <==> results == [])
            && (results != [] ==> StartsWith(r, ResultsHeading(query, |results|)))
  {
    if results != [] {
      var r := FormatSearchResults(results, query);
      var head := ResultsHeading(query, |results|);
      assert r[..|head|] == head;
      assert r[0] == '#' && NoResultsText(query)[0] == 'N';
    }
  }

  /** `search_apple_docs` once the page is fetched (or failed to be). */
  function SearchAppleDocs(query: string, kind: string, page: Result<seq<Entry>, string>): string {
    match page
    case Failure(e) => "Error: Failed to perform search: " + e
    case Success(es) => FormatSearchResults(SearchResults(es, FilterType(kind)), query)
  }

  /** The whole tool: a fetch failure is reported; with type "all" nothing
      is filtered out. */
  lemma SearchAppleDocsAll(query: string, es: seq<Entry>)
    ensures forall e :: e in es && e.link.Some? && e.link.value.href.Some? && e.link.value.href.value != "" ==>
              ParseEntry(e, FilterType("all")).Some?
  {
  }
}
