/** The grouping of a video list by year (newest first) that
    `format_video_list` and `browse_wwdc_topics` share. */
module WwdcReport {
  import opened Wrappers
  import opened PyStr
  import opened PyRepr
  import opened PySeq
  import opened OrderedDict
  import opened WwdcTypes
  import opened WwdcDataSource

  /** One `## WWDC{year}` section: the year and its videos. */
  datatype YearGroup = YearGroup(year: string, videos: seq<Video>)

  function VideoYear(): Video -> string {
    (v: Video) => v.year
  }

  const IntErrorPrefix := "invalid literal for int() with base 10: "

  /** The message of the `ValueError` that `int(s)` raises: the text shown
      by `repr`, cut to 200 characters. */
  function IntError(s: string): (r: string)
    ensures StartsWith(r, IntErrorPrefix)
    ensures |r| <= |IntErrorPrefix| + 200
  {
    IntErrorPrefix + ReprCut(s, 200)
  }

  /** A short year of plain characters is quoted as it is. */
  lemma IntErrorPlain(s: string)
    requires |s| <= 198 && forall i :: 0 <= i < |s| ==> Plain(s[i])
    ensures IntError(s) == IntErrorPrefix + ("'" + s + "'")
  {
    ReprPlain(s);
    assert |Repr(s)| <= 200;
  }

  /** A year whose `repr` fits in 200 characters is shown whole. */
  lemma IntErrorShort(s: string)
    requires |Repr(s)| <= 200
    ensures IntError(s) == IntErrorPrefix + Repr(s)
  {
  }

  /** A single quote in the year switches to double quotes. */
  lemma IntErrorSingleQuote()
    ensures IntError("20'24") == IntErrorPrefix + "\"20'24\""
  {
    ReprSingleQuoteExample();
    IntErrorShort("20'24");
  }

  /** A newline in the year is written as an escape. */
  lemma IntErrorNewline()
    ensures IntError("20\n24") == IntErrorPrefix + "'20\\n24'"
  {
    ReprNewlineExample();
    IntErrorShort("20\n24");
  }

  /** The first key, in order, that `int()` rejects. */
  function FirstNonInt(keys: seq<string>): (r: Option<string>)
    ensures r.Some? ==> r.value in keys && ParseInt(r.value).None?
    ensures r.None? ==> forall k :: k in keys ==> ParseInt(k).Some?
  {
    if keys == [] then None
    else if ParseInt(keys[0]).None? then Some(keys[0])
    else FirstNonInt(keys[1..])
  }

  lemma {:induction false} FirstNonIntAt(keys: seq<string>, i: nat)
    requires i < |keys| && ParseInt(keys[i]).None?
    requires forall j :: 0 <= j < i ==> ParseInt(keys[j]).Some?
    ensures FirstNonInt(keys) == Some(keys[i])
    decreases i
  {
    if i > 0 {
      FirstNonIntAt(keys[1..], i - 1);
    }
  }

  lemma {:induction false} FirstNonIntNone(keys: seq<string>)
    requires forall j :: 0 <= j < |keys| ==> ParseInt(keys[j]).Some?
    ensures FirstNonInt(keys) == None
    decreases |keys|
  {
    if keys != [] {
      FirstNonIntNone(keys[1..]);
    }
  }

  /** The sort key `int(year)`, for years that parse. */
  function IntKey(s: string): int {
    ParseInt(s).GetOr(0)
  }

  /** `reverse=True` on `int(year)`: a newer year may come first. */
  predicate YearNewer(a: string, b: string) {
    IntKey(a) >= IntKey(b)
  }

  lemma YearNewerPreorder()
    ensures TotalPreorder(YearNewer)
  {
  }

  /** One group per year of `years`, with the videos of that year in list order. */
  function GroupsFor(vs: seq<Video>, years: seq<string>): (gs: seq<YearGroup>)
    ensures |gs| == |years|
  {
    seq(|years|, k requires 0 <= k < |years| => YearGroup(years[k], Filter(vs, YearIs(years[k]))))
  }

  lemma GroupsForAppend(vs: seq<Video>, years: seq<string>, y: string)
    ensures GroupsFor(vs, years + [y]) == GroupsFor(vs, years) + [YearGroup(y, Filter(vs, YearIs(y)))]
  {
  }

  /** The year groups of `vs`: the years in order of first appearance, sorted
      stably by `int(year)` from newest to oldest, or the error of the first
      year that `int()` rejects. */
  function YearGroups(vs: seq<Video>): Result<seq<YearGroup>, string> {
    var years := GroupKeys(vs, VideoYear());
    match FirstNonInt(years)
    case Some(bad) => Failure(IntError(bad))
    case None => Success(GroupsFor(vs, SortBy(years, YearNewer)))
  }

  /** The groups come newest first, one per distinct year; each holds exactly
      the videos of its year in list order and is not empty; every video is in
      the group of its year. */
  lemma YearGroupsCorrect(vs: seq<Video>)
    requires YearGroups(vs).Success?
    ensures var gs := YearGroups(vs).value;
            && (forall i, j :: 0 <= i < j < |gs| ==> IntKey(gs[i].year) >= IntKey(gs[j].year))
            && (forall i, j :: 0 <= i < j < |gs| ==> gs[i].year != gs[j].year)
            && (forall i :: 0 <= i < |gs| ==> gs[i].videos == Filter(vs, YearIs(gs[i].year)) && gs[i].videos != [])
            && (forall v :: v in vs ==> exists i :: 0 <= i < |gs| && gs[i].year == v.year)
  {
    var sorted := SortBy(GroupKeys(vs, VideoYear()), YearNewer);
    var gs := YearGroups(vs).value;
    assert gs == GroupsFor(vs, sorted);
    YearNewerPreorder();
    SortedKeysCorrect(vs, VideoYear(), YearNewer);
    forall i, j | 0 <= i < j < |gs| ensures IntKey(gs[i].year) >= IntKey(gs[j].year) && gs[i].year != gs[j].year {
      assert YearNewer(sorted[i], sorted[j]);
    }
    forall i | 0 <= i < |gs| ensures gs[i].videos != [] {
      FilterExt(vs, KeyIs(VideoYear(), sorted[i]), YearIs(sorted[i]));
    }
    forall v | v in vs ensures exists i :: 0 <= i < |gs| && gs[i].year == v.year {
      assert VideoYear()(v) in sorted;
      var i :| 0 <= i < |sorted| && sorted[i] == v.year;
      assert gs[i].year == v.year;
    }
  }

  /** The grouping fails exactly when some video's year is not an integer. */
  lemma YearGroupsFail(vs: seq<Video>)
    ensures YearGroups(vs).Failure? <==> exists v :: v in vs && ParseInt(v.year).None?
  {
    var years := GroupKeys(vs, VideoYear());
    GroupKeysMembers(vs, VideoYear());
    if YearGroups(vs).Failure? {
      var bad := FirstNonInt(years).value;
      var v := Filter(vs, KeyIs(VideoYear(), bad))[0];
      FilterMembers(vs, KeyIs(VideoYear(), bad), v);
    }
    if exists v :: v in vs && ParseInt(v.year).None? {
      var v :| v in vs && ParseInt(v.year).None?;
      FilterMembers(vs, KeyIs(VideoYear(), v.year), v);
    }
  }

  /** The key conversions `sorted(keys, key=int)` performs before it sorts:
      the first key that fails, if any. */
  method FirstNonIntKey(keys: seq<string>) returns (bad: Option<string>)
    ensures bad == FirstNonInt(keys)
  {
    var i := 0;
    while i < |keys|
      invariant 0 <= i <= |keys|
      invariant forall j :: 0 <= j < i ==> ParseInt(keys[j]).Some?
    {
      if ParseInt(keys[i]).None? {
        FirstNonIntAt(keys, i);
        return Some(keys[i]);
      }
      i := i + 1;
    }
    FirstNonIntNone(keys);
    return None;
  }

  /** The output loop over the sorted years, reading each year's bucket. */
  method CollectGroups(vs: seq<Video>, years: seq<string>, buckets: map<string, seq<Video>>) returns (groups: seq<YearGroup>)
    requires forall y :: y in years ==> y in buckets && buckets[y] == Filter(vs, YearIs(y))
    ensures groups == GroupsFor(vs, years)
  {
    groups := [];
    var j := 0;
    while j < |years|
      invariant 0 <= j <= |years|
      invariant groups == GroupsFor(vs, years[..j])
    {
      var y := years[j];
      assert years[..j + 1] == years[..j] + [y];
      GroupsForAppend(vs, years[..j], y);
      groups := groups + [YearGroup(y, buckets[y])];
      j := j + 1;
    }
    assert years[..j] == years;
  }

  /** The grouping of the formatters: collect the videos per year in a dict,
      then go through the years sorted by `int(year)`, newest first. */
  method GroupVideosByYear(vs: seq<Video>) returns (r: Result<seq<YearGroup>, string>)
    ensures r == YearGroups(vs)
  {
    var d := GroupBy(vs, VideoYear());
    var bad := FirstNonIntKey(d.keys);
    if bad.Some? {
      return Failure(IntError(bad.value));
    }
    var years := SortBy(d.keys, YearNewer);
    YearNewerPreorder();
    SortByCorrect(d.keys, YearNewer);
    forall y | y in years ensures y in d.values && d.values[y] == Filter(vs, YearIs(y)) {
      assert y in multiset(d.keys);
      FilterExt(vs, KeyIs(VideoYear(), y), YearIs(y));
    }
    var groups := CollectGroups(vs, years, d.values);
    return Success(groups);
  }
}
