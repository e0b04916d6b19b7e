/** `search_wwdc_content`: pick candidate videos from the summary list, load
    their detail records, match transcripts and code, keep at most three
    matches per video, rank by number of matches and cut to `limit`. */
module WwdcSearch {
  import opened Wrappers
  import opened PyStr
  import opened PySeq
  import opened WwdcTypes
  import opened WwdcDataSource
  import opened WwdcMatching
  import opened WwdcFiles
  import opened ToolOutput
  import opened WwdcReport

  function SearchError(e: string): string {
    "Error: Failed to search WWDC content: " + e
  }

  /** The text for an empty result; it quotes the query as given. */
  function NoMatchText(query: string, searchIn: string): string {
    var scope := if searchIn == "code" then "code" else if searchIn == "transcript" then "transcript" else "content";
    "No " + scope + " found containing \"" + query + "\"."
  }

  predicate SearchesCode(searchIn: string) {
    searchIn == "code" || searchIn == "both"
  }

  predicate SearchesTranscript(searchIn: string) {
    searchIn == "transcript" || searchIn == "both"
  }

  /** The pre-filter over the summary list: the year must match exactly when
      one is given ("all" is not special here), and then the title or a topic
      must contain the query, or the video must have code or a transcript that
      the scope searches. */
  predicate IsSearchCandidate(v: Video, q: string, searchIn: string, year: Option<string>) {
    && !(Truthy(year) && v.year != year.value)
    && (|| Contains(Lower(v.title), q)
        || AnyContains(v.topics, q)
        || (SearchesCode(searchIn) && v.hasCode)
        || (SearchesTranscript(searchIn) && v.hasTranscript))
  }

  function Candidate(q: string, searchIn: string, year: Option<string>): Video -> bool {
    (v: Video) => IsSearchCandidate(v, q, searchIn, year)
  }

  function TranscriptMatchList(contexts: seq<string>): (ms: seq<Match>)
    ensures |ms| == |contexts|
  {
    seq(|contexts|, i requires 0 <= i < |contexts| => Match(TranscriptKind, contexts[i], None))
  }

  /** All matches of one video: its transcript matches (when the scope
      includes transcripts and it has one), then its code matches (when the
      scope includes code and it has code examples). */
  function VideoMatches(v: Video, q: string, searchIn: string, language: Option<string>): seq<Match> {
    (if SearchesTranscript(searchIn) && v.transcript.Some?
     then TranscriptMatchList(TranscriptMatches(v.transcript.value.fullText, q)) else [])
    + (if SearchesCode(searchIn) && v.codeExamples.Some? && v.codeExamples.value != []
       then CodeMatches(v.codeExamples.value, q, language) else [])
  }

  /** No transcript match comes after a code match. */
  predicate TranscriptFirst(ms: seq<Match>) {
    forall i, j :: 0 <= i < j < |ms| && ms[j].kind == TranscriptKind ==> ms[i].kind == TranscriptKind
  }

  lemma VideoMatchesTranscriptFirst(v: Video, q: string, searchIn: string, language: Option<string>)
    ensures TranscriptFirst(VideoMatches(v, q, searchIn, language))
  {
    var t := if SearchesTranscript(searchIn) && v.transcript.Some?
             then TranscriptMatchList(TranscriptMatches(v.transcript.value.fullText, q)) else [];
    var c := if SearchesCode(searchIn) && v.codeExamples.Some? && v.codeExamples.value != []
             then CodeMatches(v.codeExamples.value, q, language) else [];
    assert forall m :: m in t ==> m.kind == TranscriptKind;
    forall m | m in c ensures m.kind == CodeKind {
      CodeMatchesSound(v.codeExamples.value, q, language);
      var e :| e in v.codeExamples.value && CodeMatchOf(e, q, language) == Some(m);
      CodeMatchOfSound(e, q, language);
    }
    var ms := t + c;
    forall i, j | 0 <= i < j < |ms| && ms[j].kind == TranscriptKind ensures ms[i].kind == TranscriptKind {
      if j < |t| {
        assert ms[i] in t;
      }
    }
  }

  /** One entry of the results: the detail record and its first three matches. */
  datatype SearchResult = SearchResult(video: Video, matches: seq<Match>)

  /** The result entry of one loaded video, if it has any match. */
  function ResultOf(v: Video, q: string, searchIn: string, language: Option<string>): seq<SearchResult> {
    var ms := VideoMatches(v, q, searchIn, language);
    if ms == [] then [] else [SearchResult(v, Prefix(ms, 3))]
  }

  function SearchResults(videos: seq<Video>, q: string, searchIn: string, language: Option<string>): seq<SearchResult>
    decreases |videos|
  {
    if videos == [] then []
    else SearchResults(videos[..|videos| - 1], q, searchIn, language)
         + ResultOf(videos[|videos| - 1], q, searchIn, language)
  }

  /** A result entry as the search builds it: a loaded video with between one
      and three of its matches, the first ones, transcript matches first. */
  predicate WellFormedResult(r: SearchResult, videos: seq<Video>, q: string, searchIn: string, language: Option<string>) {
    && r.video in videos
    && 1 <= |r.matches| <= 3
    && r.matches == Prefix(VideoMatches(r.video, q, searchIn, language), 3)
    && TranscriptFirst(r.matches)
  }

  lemma {:induction false} SearchResultsShape(videos: seq<Video>, q: string, searchIn: string, language: Option<string>)
    ensures |SearchResults(videos, q, searchIn, language)| <= |videos|
    ensures forall r :: r in SearchResults(videos, q, searchIn, language) ==>
              WellFormedResult(r, videos, q, searchIn, language)
    decreases |videos|
  {
    if videos != [] {
      var init := videos[..|videos| - 1];
      var v := videos[|videos| - 1];
      SearchResultsShape(init, q, searchIn, language);
      forall r | r in SearchResults(videos, q, searchIn, language)
        ensures WellFormedResult(r, videos, q, searchIn, language)
      {
        if r in SearchResults(init, q, searchIn, language) {
          assert r.video in init;
        } else {
          var ms := VideoMatches(v, q, searchIn, language);
          assert r == SearchResult(v, Prefix(ms, 3));
          VideoMatchesTranscriptFirst(v, q, searchIn, language);
        }
      }
    }
  }

  /** `results.sort(key=len(matches), reverse=True)`: more matches first. */
  predicate MoreMatches(a: SearchResult, b: SearchResult) {
    |a.matches| >= |b.matches|
  }

  lemma MoreMatchesPreorder()
    ensures TotalPreorder(MoreMatches)
  {
  }

  /** The sort keeps the order of entries with equally many matches. */
  lemma RankingStable(results: seq<SearchResult>, z: SearchResult)
    ensures Filter(SortBy(results, MoreMatches), TiesWith(z, MoreMatches))
            == Filter(results, TiesWith(z, MoreMatches))
  {
    MoreMatchesPreorder();
    SortByStable(results, MoreMatches, z);
  }

  /** What `search_wwdc_content` returns for the archive. */
  function SearchSpec(c: Corpus, query: string, searchIn: string, year: Option<string>,
                      language: Option<string>, limit: int): Output<seq<SearchResult>>
  {
    var q := Lower(query);
    match AllVideosSpec(c)
    case Failure(e) => Text(SearchError(e))
    case Success(all) =>
      var candidates := Filter(all, Candidate(q, searchIn, year));
      if candidates == [] then Text(NoMatchText(query, searchIn))
      else
        var videos := LoadedVideos(c, DetailPaths(candidates));
        var ranked := Prefix(SortBy(SearchResults(videos, q, searchIn, language), MoreMatches), limit);
        if ranked == [] then Text(NoMatchText(query, searchIn)) else Report(ranked)
  }

  /** A report lists at most `limit` entries, more matches first; each entry
      is a loaded detail record of a candidate with its first one to three
      matches, transcript matches before code matches. */
  lemma SearchSpecSound(c: Corpus, query: string, searchIn: string, year: Option<string>,
                        language: Option<string>, limit: int)
    requires SearchSpec(c, query, searchIn, year, language, limit).Report?
    ensures var rs := SearchSpec(c, query, searchIn, year, language, limit).report;
            var candidates := Filter(AllVideosSpec(c).value, Candidate(Lower(query), searchIn, year));
            && rs != []
            && (limit >= 0 ==> |rs| <= limit)
            && (forall i, j :: 0 <= i < j < |rs| ==> |rs[i].matches| >= |rs[j].matches|)
            && (forall r :: r in rs ==>
                  WellFormedResult(r, LoadedVideos(c, DetailPaths(candidates)), Lower(query), searchIn, language))
  {
    var q := Lower(query);
    var all := AllVideosSpec(c).value;
    var candidates := Filter(all, Candidate(q, searchIn, year));
    var videos := LoadedVideos(c, DetailPaths(candidates));
    var results := SearchResults(videos, q, searchIn, language);
    var sorted := SortBy(results, MoreMatches);
    var rs := Prefix(sorted, limit);
    assert SearchSpec(c, query, searchIn, year, language, limit).report == rs;
    MoreMatchesPreorder();
    SortByCorrect(results, MoreMatches);
    SearchResultsShape(videos, q, searchIn, language);
    PrefixBound(sorted, limit);
    forall r | r in rs ensures WellFormedResult(r, videos, q, searchIn, language) {
      assert r in multiset(sorted);
    }
  }

  // ---------------------------------------------------------------------------
  // The imperative search

  lemma TranscriptMatchListStep(found: seq<string>, k: int)
    requires 0 <= k < |found|
    ensures TranscriptMatchList(found[..k + 1]) == TranscriptMatchList(found[..k]) + [Match(TranscriptKind, found[k], None)]
  {
  }

  lemma SearchResultsStep(videos: seq<Video>, i: int, q: string, searchIn: string, language: Option<string>)
    requires 0 <= i < |videos|
    ensures SearchResults(videos[..i + 1], q, searchIn, language)
            == SearchResults(videos[..i], q, searchIn, language) + ResultOf(videos[i], q, searchIn, language)
  {
    assert videos[..i + 1][..i] == videos[..i];
  }

  /** The loop that turns each transcript context into a transcript match. */
  method AppendTranscriptMatches(matches: seq<Match>, found: seq<string>) returns (r: seq<Match>)
    ensures r == matches + TranscriptMatchList(found)
  {
    r := matches;
    var k := 0;
    while k < |found|
      invariant 0 <= k <= |found|
      invariant r == matches + TranscriptMatchList(found[..k])
    {
      TranscriptMatchListStep(found, k);
      r := r + [Match(TranscriptKind, found[k], None)];
      k := k + 1;
    }
    assert found[..k] == found;
  }

  /** The loop that copies each code match. */
  method AppendCodeMatches(matches: seq<Match>, found: seq<Match>) returns (r: seq<Match>)
    ensures r == matches + found
  {
    r := matches;
    var k := 0;
    while k < |found|
      invariant 0 <= k <= |found|
      invariant r == matches + found[..k]
    {
      assert found[..k + 1] == found[..k] + [found[k]];
      r := r + [found[k]];
      k := k + 1;
    }
    assert found[..k] == found;
  }

  /** The matches of one loaded video, collected as the search loop does. */
  method CollectMatches(video: Video, q: string, searchIn: string, language: Option<string>)
    returns (matches: seq<Match>)
    ensures matches == VideoMatches(video, q, searchIn, language)
  {
    ghost var transcriptPart := if SearchesTranscript(searchIn) && video.transcript.Some?
      then TranscriptMatchList(TranscriptMatches(video.transcript.value.fullText, q)) else [];
    matches := [];
    if SearchesTranscript(searchIn) && video.transcript.Some? {
      var found := SearchInTranscript(video.transcript.value.fullText, q);
      matches := AppendTranscriptMatches(matches, found);
      assert [] + transcriptPart == transcriptPart;
    }
    assert matches == transcriptPart;
    if SearchesCode(searchIn) && video.codeExamples.Some? && video.codeExamples.value != [] {
      var found := SearchInCode(video.codeExamples.value, q, language);
      matches := AppendCodeMatches(matches, found);
    } else {
      assert matches + [] == matches;
    }
  }

  /** The pre-filter loop over the summary list. */
  method SelectCandidates(all: seq<Video>, q: string, searchIn: string, year: Option<string>)
    returns (candidates: seq<Video>)
    ensures candidates == Filter(all, Candidate(q, searchIn, year))
  {
    candidates := [];
    var i := 0;
    while i < |all|
      invariant 0 <= i <= |all|
      invariant candidates == Filter(all[..i], Candidate(q, searchIn, year))
    {
      var v := all[i];
      assert all[..i + 1] == all[..i] + [v];
      FilterAppend(all[..i], [v], Candidate(q, searchIn, year));
      if Truthy(year) && v.year != year.value {
        i := i + 1;
        continue;
      }
      if IsSearchCandidate(v, q, searchIn, year) {
        candidates := candidates + [v];
      }
      i := i + 1;
    }
    assert all[..i] == all;
  }

  /** The loop over the loaded videos that builds the result entries. */
  method CollectResults(videos: seq<Video>, q: string, searchIn: string, language: Option<string>)
    returns (results: seq<SearchResult>)
    ensures results == SearchResults(videos, q, searchIn, language)
  {
    results := [];
    var i := 0;
    while i < |videos|
      invariant 0 <= i <= |videos|
      invariant results == SearchResults(videos[..i], q, searchIn, language)
    {
      SearchResultsStep(videos, i, q, searchIn, language);
      var matches := CollectMatches(videos[i], q, searchIn, language);
      if matches != [] {
        results := results + [SearchResult(videos[i], Prefix(matches, 3))];
      }
      i := i + 1;
    }
    assert videos[..i] == videos;
  }

  /** `search_wwdc_content`. The in-place sort is a stable sort of the list value. */
  method SearchWwdcContent(ds: DataSource, query: string, searchIn: string, year: Option<string>,
                           language: Option<string>, limit: int)
    returns (out: Output<seq<SearchResult>>)
    requires ds.Valid()
    modifies ds
    ensures ds.Valid()
    ensures out == SearchSpec(ds.corpus, query, searchIn, year, language, limit)
  {
    var q := Lower(query);
    var all := ds.LoadAllVideos();
    if all.Failure? {
      return Text(SearchError(all.error));
    }
    var candidates := SelectCandidates(all.value, q, searchIn, year);
    if candidates == [] {
      return Text(NoMatchText(query, searchIn));
    }
    var files := CollectPaths(candidates);
    var videos := LoadVideosData(ds, files);
    var results := CollectResults(videos, q, searchIn, language);
    results := SortBy(results, MoreMatches);
    var limited := Prefix(results, limit);
    if limited == [] {
      return Text(NoMatchText(query, searchIn));
    }
    return Report(limited);
  }
}
