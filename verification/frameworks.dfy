/** `search_framework_symbols` and its helpers: flattening a framework's
    symbol index, the type and name filters, type pluralisation, and the
    bounded cache of parsed symbols. */
module Frameworks {
  import opened Wrappers
  import opened PyStr
  import opened PySeq
  import opened OrderedDict
  import opened Constants
  import opened ToolOutput

  /** An entry of a framework's symbol index; a key the JSON lacks is `None`.
      Missing, null and empty `children` all read as no children. */
  datatype IndexItem = IndexItem(
    kind: Option<string>,
    title: Option<string>,
    path: Option<string>,
    children: seq<IndexItem>)

  datatype FrameworkSymbol = FrameworkSymbol(title: string, path: string, kind: string, language: string)

  const GroupMarker := "groupMarker"

  predicate IsGroupMarker(item: IndexItem) {
    item.kind == Some(GroupMarker)
  }

  /** A symbol for a non-group entry, with the defaults for missing keys. */
  function SymbolOf(item: IndexItem, language: string): FrameworkSymbol {
    FrameworkSymbol(item.title.GetOr("Unknown"), item.path.GetOr(""), item.kind.GetOr("unknown"), language)
  }

  /** `parse_index_items`: each group marker is replaced by the flattening of
      its children, every other entry becomes one symbol, in pre-order. No
      symbol is a group marker and every symbol carries the language. */
  function ParsedItems(items: seq<IndexItem>, language: string): (r: seq<FrameworkSymbol>)
    ensures forall i :: 0 <= i < |r| ==> r[i].kind != GroupMarker && r[i].language == language
    decreases items
  {
    if items == [] then [] else ParsedItem(items[0], language) + ParsedItems(items[1..], language)
  }

  /** The symbols one entry contributes. */
  function ParsedItem(item: IndexItem, language: string): (r: seq<FrameworkSymbol>)
    ensures forall i :: 0 <= i < |r| ==> r[i].kind != GroupMarker && r[i].language == language
    decreases item
  {
    if IsGroupMarker(item) then ParsedItems(item.children, language) else [SymbolOf(item, language)]
  }

  /** Parsing a concatenation parses the parts one after the other. */
  lemma {:induction false} ParsedItemsAppend(a: seq<IndexItem>, b: seq<IndexItem>, language: string)
    ensures ParsedItems(a + b, language) == ParsedItems(a, language) + ParsedItems(b, language)
    decreases |a|
  {
    if a == [] {
      assert a + b == b;
    } else {
      assert (a + b)[0] == a[0];
      assert (a + b)[1..] == a[1..] + b;
      ParsedItemsAppend(a[1..], b, language);
    }
  }

  /** A list without group markers maps one entry to one symbol, in order. */
  lemma {:induction false} ParsedItemsFlat(items: seq<IndexItem>, language: string)
    requires forall i :: 0 <= i < |items| ==> !IsGroupMarker(items[i])
    ensures |ParsedItems(items, language)| == |items|
    ensures forall i :: 0 <= i < |items| ==> ParsedItems(items, language)[i] == SymbolOf(items[i], language)
    decreases |items|
  {
    if items != [] {
      ParsedItemsFlat(items[1..], language);
    }
  }

  /** A group marker without children contributes nothing. */
  lemma ParsedItemsEmptyGroup(item: IndexItem, rest: seq<IndexItem>, language: string)
    requires IsGroupMarker(item) && item.children == []
    ensures ParsedItems([item] + rest, language) == ParsedItems(rest, language)
  {
    assert ([item] + rest)[1..] == rest;
    assert ParsedItem(item, language) == [];
  }

  /** The entries from `i` on: the `i`th entry's symbols, then the rest. */
  lemma ParsedItemsStep(items: seq<IndexItem>, i: int, language: string)
    requires 0 <= i < |items|
    ensures ParsedItems(items[i..], language) == ParsedItem(items[i], language) + ParsedItems(items[i + 1..], language)
  {
    assert items[i..][1..] == items[i + 1..];
  }

  /** The loop of `parse_index_items`, extending the list with the result of
      the recursive call for each group marker that has children. */
  method ParseIndexItems(items: seq<IndexItem>, language: string) returns (symbols: seq<FrameworkSymbol>)
    ensures symbols == ParsedItems(items, language)
    decreases items
  {
    symbols := [];
    var i := 0;
    while i < |items|
      invariant 0 <= i <= |items|
      invariant symbols + ParsedItems(items[i..], language) == ParsedItems(items, language)
    {
      var item := items[i];
      ParsedItemsStep(items, i, language);
      ghost var before := symbols;
      if IsGroupMarker(item) {
        if item.children != [] {
          assert item in items;
          var sub := ParseIndexItems(item.children, language);
          symbols := symbols + sub;
        }
      } else {
        symbols := symbols + [SymbolOf(item, language)];
      }
      assert symbols == before + ParsedItem(item, language);
      assert before + (ParsedItem(item, language) + ParsedItems(items[i + 1..], language))
             == symbols + ParsedItems(items[i + 1..], language);
      i := i + 1;
    }
  }

  // ---------------------------------------------------------------------------
  // Filters

  /** A name pattern: the compiled regular expression (its `search` as a test,
      the regex engine is not modelled), or the lower-cased text when the
      pattern does not compile. */
  datatype PatternObj = Compiled(search: string -> bool) | Literal(lowered: string)

  predicate PatternTruthy(p: Option<PatternObj>) {
    p.Some? && (p.value.Literal? ==> p.value.lowered != [])
  }

  /** `matches_pattern`; the string branch is a case-insensitive substring test. */
  predicate MatchesPattern(text: string, p: PatternObj) {
    match p
    case Compiled(search) => search(text)
    case Literal(lowered) => Contains(Lower(text), lowered)
  }

  /** `matches_criteria` with an already lower-cased target type. */
  predicate MatchesCriteria(s: FrameworkSymbol, targetType: string, p: Option<PatternObj>) {
    && !(targetType != "all" && Lower(s.kind) != targetType)
    && !(PatternTruthy(p) && !MatchesPattern(s.title, p.value))
  }

  function Matching(targetType: string, p: Option<PatternObj>): FrameworkSymbol -> bool {
    (s: FrameworkSymbol) => MatchesCriteria(s, targetType, p)
  }

  /** With type "all" and no pattern every symbol is kept; a literal pattern
      keeps exactly the titles that contain it, ignoring case. */
  lemma MatchesCriteriaCases(s: FrameworkSymbol, targetType: string, text: string)
    ensures MatchesCriteria(s, "all", None)
    ensures MatchesCriteria(s, targetType, Some(Literal(Lower(text)))) <==>
              (targetType == "all" || Lower(s.kind) == targetType) && (text == [] || Contains(Lower(s.title), Lower(text)))
  {
  }

  /** `pluralize_type`. */
  function PluralizeType(t: string): (r: string)
    ensures EndsWith(r, "s")
    ensures EndsWith(t, "s") ==> r == t
  {
    if EndsWith(t, "s") then t
    else if EndsWith(t, "y") then
      var r := t[..|t| - 1] + "ies";
      assert r[|r| - 1..] == "s";
      r
    else
      var r := t + "s";
      assert r[|r| - 1..] == "s";
      r
  }

  /** Pluralising twice is pluralising once; a name ending in "y" (and not in
      "s") takes "ies" in place of the "y". */
  lemma PluralizeTypeProperties(t: string)
    ensures PluralizeType(PluralizeType(t)) == PluralizeType(t)
    ensures EndsWith(t, "y") ==> PluralizeType(t) == t[..|t| - 1] + "ies"
  {
    if EndsWith(t, "y") {
      assert !EndsWith(t, "s");
    }
  }

  // ---------------------------------------------------------------------------
  // The listing

  lemma StrLePreorder()
    ensures TotalPreorder(StrLe)
  {
    forall a, b ensures StrLe(a, b) || StrLe(b, a) {
      StrLeTotal(a, b);
    }
    forall a, b, c | StrLe(a, b) && StrLe(b, c) ensures StrLe(a, c) {
      StrLeTrans(a, b, c);
    }
  }

  function SymbolKind(): FrameworkSymbol -> string {
    (s: FrameworkSymbol) => s.kind
  }

  /** One `## {Types}` section: the type, its plural heading and its symbols. */
  datatype TypeGroup = TypeGroup(kind: string, heading: string, symbols: seq<FrameworkSymbol>)

  /** The shown symbols grouped by type, types in sorted order. */
  function TypeGroups(shown: seq<FrameworkSymbol>): seq<TypeGroup> {
    var kinds := SortBy(GroupKeys(shown, SymbolKind()), StrLe);
    seq(|kinds|, k requires 0 <= k < |kinds| =>
      TypeGroup(kinds[k], PluralizeType(kinds[k]), Filter(shown, KeyIs(SymbolKind(), kinds[k]))))
  }

  predicate IsCollection(s: FrameworkSymbol) {
    s.kind == "collection"
  }

  function Collection(): FrameworkSymbol -> bool {
    (s: FrameworkSymbol) => IsCollection(s)
  }

  /** Below the counts: the collections to try when nothing matched, or the
      type label, the cut (when there are more than `limit` matches) and the
      groups of the first `limit` matches. */
  datatype ListingBody =
    | NoSymbols(collections: seq<FrameworkSymbol>)
    | SymbolsFound(typeLabel: string, showingTop: Option<int>, groups: seq<TypeGroup>)

  datatype SymbolListing = SymbolListing(
    framework: string,
    found: nat,
    typeFilter: Option<string>,
    patternShown: Option<string>,
    body: ListingBody)

  /** The pattern object of a name pattern: `compiled` is what `re.compile`
      gives for it, `None` when it raises. */
  function PatternOf(namePattern: Option<string>, compiled: Option<string -> bool>): Option<PatternObj> {
    if !Truthy(namePattern) then None
    else if compiled.Some? then Some(Compiled(compiled.value))
    else Some(Literal(Lower(namePattern.value)))
  }

  /** The listing for a list of parsed symbols. */
  function SymbolListingOf(all: seq<FrameworkSymbol>, framework: string, symbolType: string,
                           namePattern: Option<string>, compiled: Option<string -> bool>, limit: int): SymbolListing
  {
    var found := Filter(all, Matching(Lower(symbolType), PatternOf(namePattern, compiled)));
    SymbolListing(
      framework, |found|,
      if symbolType != "all" then Some(symbolType) else None,
      if Truthy(namePattern) then namePattern else None,
      if found == [] then NoSymbols(Prefix(Filter(all, Collection()), MaxCollectionsToShow))
      else SymbolsFound(
        if symbolType == "all" then symbolType else Lower(PluralizeType(symbolType)),
        if |found| > limit then Some(limit) else None,
        TypeGroups(Prefix(found, limit))))
  }

  /** The listing counts the matching symbols. Without a match it suggests at
      most five collections, in index order. Otherwise its groups come in
      strictly increasing type order; each holds, in order, the shown symbols
      of its type, and every shown symbol (at most `limit`, all matching) is
      in the group of its type. */
  lemma SymbolListingSound(all: seq<FrameworkSymbol>, framework: string, symbolType: string,
                           namePattern: Option<string>, compiled: Option<string -> bool>, limit: int)
    ensures var l := SymbolListingOf(all, framework, symbolType, namePattern, compiled, limit);
            var p := Matching(Lower(symbolType), PatternOf(namePattern, compiled));
            var shown := Prefix(Filter(all, p), limit);
            && l.found == |Filter(all, p)|
            && (l.body.NoSymbols? ==>
                  |l.body.collections| <= MaxCollectionsToShow && IsSubseq(l.body.collections, all)
                  && forall s :: s in l.body.collections ==> IsCollection(s))
            && (l.body.SymbolsFound? ==>
                  && (limit >= 0 ==> |shown| <= limit)
                  && (forall s :: s in shown ==> s in all && MatchesCriteria(s, Lower(symbolType), PatternOf(namePattern, compiled)))
                  && (forall i, j :: 0 <= i < j < |l.body.groups| ==>
                        StrLe(l.body.groups[i].kind, l.body.groups[j].kind) && l.body.groups[i].kind != l.body.groups[j].kind)
                  && (forall i :: 0 <= i < |l.body.groups| ==>
                        l.body.groups[i].symbols == Filter(shown, KeyIs(SymbolKind(), l.body.groups[i].kind))
                        && l.body.groups[i].symbols != []
                        && l.body.groups[i].heading == PluralizeType(l.body.groups[i].kind))
                  && (forall s :: s in shown ==> exists i :: 0 <= i < |l.body.groups| && l.body.groups[i].kind == s.kind))
  {
    var p := Matching(Lower(symbolType), PatternOf(namePattern, compiled));
    var found := Filter(all, p);
    var shown := Prefix(found, limit);
    var cols := Filter(all, Collection());
    PrefixBound(cols, MaxCollectionsToShow);
    PrefixIsSubseq(cols, MaxCollectionsToShow);
    FilterIsSubseq(all, Collection());
    SubseqTrans(Prefix(cols, MaxCollectionsToShow), cols, all);
    forall s | s in Prefix(cols, MaxCollectionsToShow) ensures IsCollection(s) {
      SubseqMembers(Prefix(cols, MaxCollectionsToShow), cols, s);
      FilterMembers(all, Collection(), s);
    }
    PrefixBound(found, limit);
    forall s | s in shown ensures s in all && MatchesCriteria(s, Lower(symbolType), PatternOf(namePattern, compiled)) {
      PrefixIsSubseq(found, limit);
      SubseqMembers(shown, found, s);
      FilterMembers(all, p, s);
    }
    TypeGroupsCorrect(shown);
  }

  /** The groups of `TypeGroups`: sorted distinct types, each group exactly
      the symbols of its type, non-empty, and every symbol's type present. */
  lemma TypeGroupsCorrect(shown: seq<FrameworkSymbol>)
    ensures var gs := TypeGroups(shown);
            && (forall i, j :: 0 <= i < j < |gs| ==> StrLe(gs[i].kind, gs[j].kind) && gs[i].kind != gs[j].kind)
            && (forall i :: 0 <= i < |gs| ==>
                  gs[i].symbols == Filter(shown, KeyIs(SymbolKind(), gs[i].kind)) && gs[i].symbols != []
                  && gs[i].heading == PluralizeType(gs[i].kind))
            && (forall s :: s in shown ==> exists i :: 0 <= i < |gs| && gs[i].kind == s.kind)
  {
    var kinds := SortBy(GroupKeys(shown, SymbolKind()), StrLe);
    var gs := TypeGroups(shown);
    StrLePreorder();
    SortedKeysCorrect(shown, SymbolKind(), StrLe);
    forall i, j | 0 <= i < j < |gs| ensures StrLe(gs[i].kind, gs[j].kind) && gs[i].kind != gs[j].kind {
      assert StrLe(kinds[i], kinds[j]);
    }
    forall s | s in shown ensures exists i :: 0 <= i < |gs| && gs[i].kind == s.kind {
      assert SymbolKind()(s) in kinds;
      var i :| 0 <= i < |kinds| && kinds[i] == s.kind;
      assert gs[i].kind == s.kind;
    }
  }

  function FrameworkError(e: string): string {
    "Error: Failed to search framework symbols: " + e
  }

  /** The cache key of a framework and language. */
  function CacheKey(framework: string, language: string): string {
    Lower(framework) + "-" + language
  }

  /** Frameworks differing only in letter case share an entry. */
  lemma CacheKeyIgnoresCase(f1: string, f2: string, language: string)
    requires Lower(f1) == Lower(f2)
    ensures CacheKey(f1, language) == CacheKey(f2, language)
  {
  }

  // ---------------------------------------------------------------------------
  // The cache and the tool

  /** `_framework_symbols_cache`, at most 50 entries in insertion order. */
  class FrameworkSymbolsCache {
    var entries: Dict<string, seq<FrameworkSymbol>>

    ghost predicate Valid()
      reads this
    {
      entries.Valid() && entries.Size() <= FrameworkCacheSize
    }

    constructor ()
      ensures Valid() && entries.Size() == 0
    {
      entries := Empty();
    }

    /** `_prune_framework_cache`: at 50 entries, drop the first-inserted one. */
    method Prune()
      requires Valid()
      modifies this
      ensures Valid()
      ensures entries == old(entries).PruneOldest(FrameworkCacheSize)
      ensures entries.Size() < FrameworkCacheSize
    {
      entries := entries.PruneOldest(FrameworkCacheSize);
    }

    /** `search_framework_symbols`. `fetched` is what fetching the framework's
        index yields for the language (its `interfaceLanguages[language]`
        list), consulted only on a cache miss; `compiled` is what
        `re.compile` gives for the name pattern. */
    method SearchFrameworkSymbols(framework: string, symbolType: string, namePattern: Option<string>,
                                  language: string, limit: int, fetched: Result<seq<IndexItem>, string>,
                                  compiled: Option<string -> bool>)
      returns (out: Output<SymbolListing>)
      requires Valid()
      modifies this
      ensures Valid()
      ensures var key := CacheKey(framework, language);
              if key in old(entries.values) then
                entries == old(entries)
                && out == Report(SymbolListingOf(old(entries.values[key]), framework, symbolType, namePattern, compiled, limit))
              else if fetched.Failure? then
                entries == old(entries) && out == Text(FrameworkError(fetched.error))
              else
                var symbols := ParsedItems(fetched.value, language);
                entries == old(entries).PruneOldest(FrameworkCacheSize).Set(key, symbols)
                && out == Report(SymbolListingOf(symbols, framework, symbolType, namePattern, compiled, limit))
    {
      var key := CacheKey(framework, language);
      var all: seq<FrameworkSymbol>;
      if key in entries.values {
        all := entries.values[key];
      } else {
        if fetched.Failure? {
          return Text(FrameworkError(fetched.error));
        }
        all := ParseIndexItems(fetched.value, language);
        Prune();
        entries := entries.Set(key, all);
      }
      out := Report(SymbolListingOf(all, framework, symbolType, namePattern, compiled, limit));
    }
  }
}
