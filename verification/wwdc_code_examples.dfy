/** `get_wwdc_code_examples` and the structure of `format_code_examples`:
    pick videos with code from the summary list, load their detail records,
    keep the code examples that match the language and framework filters,
    cut to `limit` and group the rows by language. */
module WwdcCodeExamples {
  import opened Wrappers
  import opened PyStr
  import opened PySeq
  import opened OrderedDict
  import opened WwdcTypes
  import opened WwdcDataSource
  import opened WwdcMatching
  import opened WwdcFiles
  import opened ToolOutput
  import opened WwdcReport

  const NoExamplesText := "No code examples found matching the criteria."

  function CodeExamplesError(e: string): string {
    "Error: Failed to get WWDC code examples: " + e
  }

  /** The pre-filter over the summary list: the exact year when one is given
      ("all" is not special here), code present, and, when a topic is given,
      a topic entry or the title containing it, ignoring case. */
  predicate IsCodeCandidate(v: Video, year: Option<string>, topic: Option<string>) {
    && !(Truthy(year) && v.year != year.value)
    && v.hasCode
    && (Truthy(topic) ==> AnyContains(v.topics, Lower(topic.value)) || Contains(Lower(v.title), Lower(topic.value)))
  }

  function CodeCandidate(year: Option<string>, topic: Option<string>): Video -> bool {
    (v: Video) => IsCodeCandidate(v, year, topic)
  }

  /** The example filters: the language equal ignoring case, and the
      framework name contained in the code ignoring case, each when given. */
  predicate ExampleWanted(ex: CodeExample, framework: Option<string>, language: Option<string>) {
    && !(Truthy(language) && Lower(ex.language) != Lower(language.value))
    && !(Truthy(framework) && !Contains(Lower(ex.code), Lower(framework.value)))
  }

  /** One collected example with the video it comes from. */
  datatype ExampleRow = ExampleRow(
    code: string,
    language: string,
    title: Option<string>,
    timestamp: Option<string>,
    videoTitle: string,
    videoUrl: string,
    year: string)

  function RowOf(ex: CodeExample, v: Video): ExampleRow {
    ExampleRow(ex.code, ex.language, ex.title, ex.timestamp, v.title, v.url, v.year)
  }

  /** A detail record's code examples; a missing list has none. */
  function Examples(v: Video): seq<CodeExample> {
    v.codeExamples.GetOr([])
  }

  /** The rows of the wanted examples among `examples` of video `v`, in order. */
  function VideoRows(v: Video, examples: seq<CodeExample>, framework: Option<string>, language: Option<string>)
    : seq<ExampleRow>
    decreases |examples|
  {
    if examples == [] then []
    else
      var ex := examples[|examples| - 1];
      VideoRows(v, examples[..|examples| - 1], framework, language)
      + (if ExampleWanted(ex, framework, language) then [RowOf(ex, v)] else [])
  }

  /** The rows of all loaded videos, video by video. */
  function ExampleRows(videos: seq<Video>, framework: Option<string>, language: Option<string>): seq<ExampleRow>
    decreases |videos|
  {
    if videos == [] then []
    else
      var v := videos[|videos| - 1];
      ExampleRows(videos[..|videos| - 1], framework, language) + VideoRows(v, Examples(v), framework, language)
  }

  /** A row of a video is exactly a wanted example of that video. */
  lemma {:induction false} VideoRowsIff(v: Video, examples: seq<CodeExample>, framework: Option<string>,
                                        language: Option<string>, r: ExampleRow)
    ensures r in VideoRows(v, examples, framework, language) <==>
            exists ex :: ex in examples && ExampleWanted(ex, framework, language) && r == RowOf(ex, v)
    decreases |examples|
  {
    if examples != [] {
      var init := examples[..|examples| - 1];
      var ex := examples[|examples| - 1];
      VideoRowsIff(v, init, framework, language, r);
      assert examples == init + [ex];
      if exists e :: e in examples && ExampleWanted(e, framework, language) && r == RowOf(e, v) {
        var e :| e in examples && ExampleWanted(e, framework, language) && r == RowOf(e, v);
        if e != ex {
          assert e in init;
        }
      }
    }
  }

  /** A collected row is a row of one of the loaded videos. */
  lemma {:induction false} ExampleRowsMember(videos: seq<Video>, framework: Option<string>, language: Option<string>,
                                             r: ExampleRow)
    ensures r in ExampleRows(videos, framework, language) <==>
            exists v :: v in videos && r in VideoRows(v, Examples(v), framework, language)
    decreases |videos|
  {
    if videos != [] {
      var init := videos[..|videos| - 1];
      var last := videos[|videos| - 1];
      ExampleRowsMember(init, framework, language, r);
      assert videos == init + [last];
      if exists v :: v in videos && r in VideoRows(v, Examples(v), framework, language) {
        var v :| v in videos && r in VideoRows(v, Examples(v), framework, language);
        if v != last {
          assert v in init;
        }
      }
    }
  }

  /** The collected rows are exactly the wanted examples of the loaded videos. */
  lemma ExampleRowsIff(videos: seq<Video>, framework: Option<string>, language: Option<string>, r: ExampleRow)
    ensures r in ExampleRows(videos, framework, language) <==>
            exists v, ex :: v in videos && ex in Examples(v) && ExampleWanted(ex, framework, language) && r == RowOf(ex, v)
  {
    ExampleRowsMember(videos, framework, language, r);
    if r in ExampleRows(videos, framework, language) {
      var v :| v in videos && r in VideoRows(v, Examples(v), framework, language);
      VideoRowsIff(v, Examples(v), framework, language, r);
    }
    if exists v, ex :: v in videos && ex in Examples(v) && ExampleWanted(ex, framework, language) && r == RowOf(ex, v) {
      var v, ex :| v in videos && ex in Examples(v) && ExampleWanted(ex, framework, language) && r == RowOf(ex, v);
      VideoRowsIff(v, Examples(v), framework, language, r);
    }
  }

  // ---------------------------------------------------------------------------
  // format_code_examples

  /** One `## {Language}` section: the language as the rows spell it, its
      heading (`str.capitalize()`), and its rows in order. */
  datatype LanguageGroup = LanguageGroup(language: string, heading: string, rows: seq<ExampleRow>)

  function RowLanguage(): ExampleRow -> string {
    (r: ExampleRow) => r.language
  }

  /** The rows grouped by language, languages in order of first appearance. */
  function LanguageGroups(rows: seq<ExampleRow>): (gs: seq<LanguageGroup>)
    ensures |gs| == |GroupKeys(rows, RowLanguage())|
  {
    var langs := GroupKeys(rows, RowLanguage());
    seq(|langs|, k requires 0 <= k < |langs| =>
      LanguageGroup(langs[k], Capitalize(langs[k]), Filter(rows, KeyIs(RowLanguage(), langs[k]))))
  }

  /** One group per distinct language; each group is non-empty and holds
      exactly the rows of its language in order; every row is in the group of
      its language. */
  lemma LanguageGroupsCorrect(rows: seq<ExampleRow>)
    ensures var gs := LanguageGroups(rows);
            && (forall i, j :: 0 <= i < j < |gs| ==> gs[i].language != gs[j].language)
            && (forall i :: 0 <= i < |gs| ==>
                  && gs[i].heading == Capitalize(gs[i].language)
                  && gs[i].rows != []
                  && gs[i].rows == Filter(rows, KeyIs(RowLanguage(), gs[i].language)))
            && (forall r :: r in rows ==> exists i :: 0 <= i < |gs| && gs[i].language == r.language && r in gs[i].rows)
  {
    var gs := LanguageGroups(rows);
    var langs := GroupKeys(rows, RowLanguage());
    GroupKeysMembers(rows, RowLanguage());
    forall r | r in rows ensures exists i :: 0 <= i < |gs| && gs[i].language == r.language && r in gs[i].rows {
      FilterMembers(rows, KeyIs(RowLanguage(), r.language), r);
      var i :| 0 <= i < |langs| && langs[i] == r.language;
      assert gs[i].language == r.language;
    }
  }

  /** The "Filter Conditions" line: the filters that were given. */
  function ExampleConditions(framework: Option<string>, topic: Option<string>, language: Option<string>): seq<string> {
    (if Truthy(framework) then ["Framework: " + framework.value] else [])
    + (if Truthy(topic) then ["Topic: " + topic.value] else [])
    + (if Truthy(language) then ["Language: " + language.value] else [])
  }

  /** The content of the report: the filter conditions, the number of
      examples and the examples by language. */
  datatype CodeExampleList = CodeExampleList(conditions: seq<string>, count: nat, groups: seq<LanguageGroup>)

  /** What `format_code_examples` produces. */
  function CodeExampleListOf(rows: seq<ExampleRow>, framework: Option<string>, topic: Option<string>,
                             language: Option<string>): Output<CodeExampleList>
  {
    if rows == [] then Text(NoExamplesText)
    else Report(CodeExampleList(ExampleConditions(framework, topic, language), |rows|, LanguageGroups(rows)))
  }

  /** What `get_wwdc_code_examples` returns for the archive. */
  function CodeExamplesSpec(c: Corpus, framework: Option<string>, topic: Option<string>, year: Option<string>,
                            language: Option<string>, limit: int): Output<CodeExampleList>
  {
    match AllVideosSpec(c)
    case Failure(e) => Text(CodeExamplesError(e))
    case Success(all) =>
      var candidates := Filter(all, CodeCandidate(year, topic));
      if candidates == [] then Text(NoExamplesText)
      else
        var videos := LoadedVideos(c, DetailPaths(candidates));
        CodeExampleListOf(Prefix(ExampleRows(videos, framework, language), limit), framework, topic, language)
  }

  /** The specification once the list has loaded: no candidates, or the report
      of the loaded candidates' rows. */
  lemma CodeExamplesSpecLoaded(c: Corpus, all: seq<Video>, framework: Option<string>, topic: Option<string>,
                               year: Option<string>, language: Option<string>, limit: int)
    requires AllVideosSpec(c) == Success(all)
    ensures var candidates := Filter(all, CodeCandidate(year, topic));
            CodeExamplesSpec(c, framework, topic, year, language, limit)
            == if candidates == [] then Text(NoExamplesText)
               else CodeExampleListOf(Prefix(ExampleRows(LoadedVideos(c, DetailPaths(candidates)), framework, language), limit),
                                      framework, topic, language)
  {
  }

  /** The detail records the tool reads: those of the candidates. */
  function CodeVideos(c: Corpus, year: Option<string>, topic: Option<string>): seq<Video>
    requires AllVideosSpec(c).Success?
  {
    LoadedVideos(c, DetailPaths(Filter(AllVideosSpec(c).value, CodeCandidate(year, topic))))
  }

  /** A report counts between one and `limit` examples; every row of every
      group is a wanted example of a loaded candidate record, and sits in the
      group of its language. */
  lemma CodeExamplesSpecSound(c: Corpus, framework: Option<string>, topic: Option<string>, year: Option<string>,
                              language: Option<string>, limit: int)
    requires CodeExamplesSpec(c, framework, topic, year, language, limit).Report?
    ensures var l := CodeExamplesSpec(c, framework, topic, year, language, limit).report;
            && 0 < l.count && (limit >= 0 ==> l.count <= limit)
            && (forall i, r :: 0 <= i < |l.groups| && r in l.groups[i].rows ==>
                  && r.language == l.groups[i].language
                  && exists v, ex :: v in CodeVideos(c, year, topic) && ex in Examples(v)
                                     && ExampleWanted(ex, framework, language) && r == RowOf(ex, v))
  {
    var videos := CodeVideos(c, year, topic);
    var all := ExampleRows(videos, framework, language);
    var rows := Prefix(all, limit);
    assert CodeExamplesSpec(c, framework, topic, year, language, limit) == CodeExampleListOf(rows, framework, topic, language);
    var gs := LanguageGroups(rows);
    PrefixBound(all, limit);
    LanguageGroupsCorrect(rows);
    forall i, r | 0 <= i < |gs| && r in gs[i].rows
      ensures && r.language == gs[i].language
              && exists v, ex :: v in videos && ex in Examples(v) && ExampleWanted(ex, framework, language) && r == RowOf(ex, v)
    {
      FilterMembers(rows, KeyIs(RowLanguage(), gs[i].language), r);
      PrefixIsSubseq(all, limit);
      SubseqMembers(rows, all, r);
      ExampleRowsIff(videos, framework, language, r);
    }
  }

  /** Below the limit nothing is lost: every wanted example of every loaded
      candidate record shows up in the group of its language. */
  lemma CodeExamplesComplete(c: Corpus, framework: Option<string>, topic: Option<string>, year: Option<string>,
                             language: Option<string>, limit: int, v: Video, ex: CodeExample)
    requires AllVideosSpec(c).Success?
    requires v in CodeVideos(c, year, topic) && ex in Examples(v) && ExampleWanted(ex, framework, language)
    requires |ExampleRows(CodeVideos(c, year, topic), framework, language)| <= limit
    ensures CodeExamplesSpec(c, framework, topic, year, language, limit).Report?
    ensures var l := CodeExamplesSpec(c, framework, topic, year, language, limit).report;
            exists i :: 0 <= i < |l.groups| && l.groups[i].language == ex.language && RowOf(ex, v) in l.groups[i].rows
  {
    var videos := CodeVideos(c, year, topic);
    var all := ExampleRows(videos, framework, language);
    ExampleRowsIff(videos, framework, language, RowOf(ex, v));
    assert Prefix(all, limit) == all;
    var candidates := Filter(AllVideosSpec(c).value, CodeCandidate(year, topic));
    assert candidates != [];
    assert CodeExamplesSpec(c, framework, topic, year, language, limit) == CodeExampleListOf(all, framework, topic, language);
    LanguageGroupsCorrect(all);
  }

  // ---------------------------------------------------------------------------
  // The imperative tool

  /** The pre-filter loop over the summary list. */
  method SelectCodeCandidates(all: seq<Video>, year: Option<string>, topic: Option<string>)
    returns (candidates: seq<Video>)
    ensures candidates == Filter(all, CodeCandidate(year, topic))
  {
    var topicLower: Option<string> := if Truthy(topic) then Some(Lower(topic.value)) else None;
    candidates := [];
    var i := 0;
    while i < |all|
      invariant 0 <= i <= |all|
      invariant candidates == Filter(all[..i], CodeCandidate(year, topic))
    {
      var v := all[i];
      assert all[..i + 1] == all[..i] + [v];
      FilterAppend(all[..i], [v], CodeCandidate(year, topic));
      i := i + 1;
      if Truthy(year) && v.year != year.value {
        continue;
      }
      if !v.hasCode {
        continue;
      }
      if Truthy(topicLower) && !(AnyContains(v.topics, topicLower.value) || Contains(Lower(v.title), topicLower.value)) {
        continue;
      }
      candidates := candidates + [v];
    }
    assert all[..i] == all;
  }

  /** The loop over one video's examples. */
  method CollectVideoRows(v: Video, examples: seq<CodeExample>, framework: Option<string>, language: Option<string>)
    returns (rows: seq<ExampleRow>)
    ensures rows == VideoRows(v, examples, framework, language)
  {
    rows := [];
    var k := 0;
    while k < |examples|
      invariant 0 <= k <= |examples|
      invariant rows == VideoRows(v, examples[..k], framework, language)
    {
      var ex := examples[k];
      assert examples[..k + 1][..k] == examples[..k];
      k := k + 1;
      if Truthy(language) && Lower(ex.language) != Lower(language.value) {
        continue;
      }
      if Truthy(framework) && !Contains(Lower(ex.code), Lower(framework.value)) {
        continue;
      }
      rows := rows + [RowOf(ex, v)];
    }
    assert examples[..k] == examples;
  }

  /** The loop over the loaded videos; a video without examples adds nothing. */
  method CollectRows(videos: seq<Video>, framework: Option<string>, language: Option<string>)
    returns (rows: seq<ExampleRow>)
    ensures rows == ExampleRows(videos, framework, language)
  {
    rows := [];
    var i := 0;
    while i < |videos|
      invariant 0 <= i <= |videos|
      invariant rows == ExampleRows(videos[..i], framework, language)
    {
      var v := videos[i];
      assert videos[..i + 1][..i] == videos[..i];
      i := i + 1;
      if v.codeExamples.None? || v.codeExamples.value == [] {
        continue;
      }
      var more := CollectVideoRows(v, v.codeExamples.value, framework, language);
      rows := rows + more;
    }
    assert videos[..i] == videos;
  }

  /** The output loop over the languages of the dict, in insertion order. */
  method CollectLanguageGroups(rows: seq<ExampleRow>, d: Dict<string, seq<ExampleRow>>)
    returns (groups: seq<LanguageGroup>)
    requires d.Valid() && d.keys == GroupKeys(rows, RowLanguage())
    requires forall k :: k in d.values ==> d.values[k] == Filter(rows, KeyIs(RowLanguage(), k))
    ensures groups == LanguageGroups(rows)
  {
    groups := [];
    var j := 0;
    while j < |d.keys|
      invariant 0 <= j <= |d.keys|
      invariant groups == LanguageGroups(rows)[..j]
    {
      var lang := d.keys[j];
      groups := groups + [LanguageGroup(lang, Capitalize(lang), d.values[lang])];
      j := j + 1;
    }
    assert LanguageGroups(rows)[..j] == LanguageGroups(rows);
  }

  /** `format_code_examples`: a dict from language to rows, then one section
      per key in insertion order. */
  method FormatCodeExamples(rows: seq<ExampleRow>, framework: Option<string>, topic: Option<string>,
                            language: Option<string>)
    returns (out: Output<CodeExampleList>)
    ensures out == CodeExampleListOf(rows, framework, topic, language)
  {
    if rows == [] {
      return Text(NoExamplesText);
    }
    var filters: seq<string> := [];
    if Truthy(framework) {
      filters := filters + ["Framework: " + framework.value];
    }
    if Truthy(topic) {
      filters := filters + ["Topic: " + topic.value];
    }
    if Truthy(language) {
      filters := filters + ["Language: " + language.value];
    }
    assert filters == ExampleConditions(framework, topic, language);
    var d := GroupBy(rows, RowLanguage());
    var groups := CollectLanguageGroups(rows, d);
    return Report(CodeExampleList(filters, |rows|, groups));
  }

  /** The rest of `get_wwdc_code_examples` once the records are loaded: the
      example rows, cut to `limit`, and their report. */
  method ReportExamples(videos: seq<Video>, framework: Option<string>, topic: Option<string>,
                        language: Option<string>, limit: int) returns (out: Output<CodeExampleList>)
    ensures out == CodeExampleListOf(Prefix(ExampleRows(videos, framework, language), limit), framework, topic, language)
  {
    var rows := CollectRows(videos, framework, language);
    var limited := Prefix(rows, limit);
    out := FormatCodeExamples(limited, framework, topic, language);
  }

  /** `get_wwdc_code_examples` after the video list has loaded: the candidates,
      their detail records and the report. */
  method ExamplesFromList(ds: DataSource, all: seq<Video>, framework: Option<string>, topic: Option<string>,
                          year: Option<string>, language: Option<string>, limit: int)
    returns (out: Output<CodeExampleList>)
    requires ds.Valid() && AllVideosSpec(ds.corpus) == Success(all)
    modifies ds
    ensures ds.Valid()
    ensures out == CodeExamplesSpec(ds.corpus, framework, topic, year, language, limit)
  {
    CodeExamplesSpecLoaded(ds.corpus, all, framework, topic, year, language, limit);
    var candidates := SelectCodeCandidates(all, year, topic);
    if candidates == [] {
      out := FormatCodeExamples([], framework, topic, language);
      return;
    }
    var files := CollectPaths(candidates);
    var videos := LoadVideosData(ds, files);
    out := ReportExamples(videos, framework, topic, language, limit);
  }

  /** `get_wwdc_code_examples`. */
  method GetWwdcCodeExamples(ds: DataSource, framework: Option<string>, topic: Option<string>,
                             year: Option<string>, language: Option<string>, limit: int)
    returns (out: Output<CodeExampleList>)
    requires ds.Valid()
    modifies ds
    ensures ds.Valid()
    ensures out == CodeExamplesSpec(ds.corpus, framework, topic, year, language, limit)
  {
    var all := ds.LoadAllVideos();
    if all.Failure? {
      return Text(CodeExamplesError(all.error));
    }
    out := ExamplesFromList(ds, all.value, framework, topic, year, language, limit);
  }
}
