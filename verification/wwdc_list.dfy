/** `list_wwdc_videos` and the structure of `format_video_list`. */
module WwdcList {
  import opened Wrappers
  import opened PyStr
  import opened PySeq
  import opened WwdcTypes
  import opened WwdcDataSource
  import opened WwdcMatching
  import opened ToolOutput
  import opened WwdcReport

  const NoVideosText := "No WWDC videos found matching the criteria."

  function ListError(e: string): string {
    "Error: Failed to list WWDC videos: " + e
  }

  /** The year filter applies unless the year is missing, empty or "all". */
  predicate YearFilterOn(year: Option<string>) {
    Truthy(year) && year.value != "all"
  }

  /** A topic entry or the title contains the lower-cased topic, ignoring case. */
  function TopicHit(topicLower: string): Video -> bool {
    (v: Video) => AnyContains(v.topics, topicLower) || Contains(Lower(v.title), topicLower)
  }

  function HasCodeIs(b: bool): Video -> bool {
    (v: Video) => v.hasCode == b
  }

  /** The three list comprehensions, one after the other, then `[:limit]`. */
  function ListedVideos(all: seq<Video>, year: Option<string>, topic: Option<string>,
                        hasCode: Option<bool>, limit: int): seq<Video>
  {
    var byYear := if YearFilterOn(year) then Filter(all, YearIs(year.value)) else all;
    var byTopic := if Truthy(topic) then Filter(byYear, TopicHit(Lower(topic.value))) else byYear;
    var byCode := if hasCode.Some? then Filter(byTopic, HasCodeIs(hasCode.value)) else byTopic;
    Prefix(byCode, limit)
  }

  /** The conditions a listed video meets, all at once. */
  predicate ListCriteria(year: Option<string>, topic: Option<string>, hasCode: Option<bool>, v: Video) {
    && (YearFilterOn(year) ==> v.year == year.value)
    && (Truthy(topic) ==> AnyContains(v.topics, Lower(topic.value)) || Contains(Lower(v.title), Lower(topic.value)))
    && (hasCode.Some? ==> v.hasCode == hasCode.value)
  }

  function Listed(year: Option<string>, topic: Option<string>, hasCode: Option<bool>): Video -> bool {
    (v: Video) => ListCriteria(year, topic, hasCode, v)
  }

  /** The test of an optional filter: `p` when the filter is on, else none. */
  function When(on: bool, p: Video -> bool): Video -> bool {
    if on then p else (v: Video) => true
  }

  /** An optional comprehension is a filter by `When`. */
  lemma FilterWhen(s: seq<Video>, on: bool, p: Video -> bool)
    ensures (if on then Filter(s, p) else s) == Filter(s, When(on, p))
  {
    if !on {
      FilterAll(s, When(on, p));
    }
  }

  /** The three optional tests together are the listing criteria. */
  lemma ListedIsBoth(year: Option<string>, topic: Option<string>, hasCode: Option<bool>, v: Video)
    ensures Both(Both(When(YearFilterOn(year), YearIs(year.GetOr(""))), When(Truthy(topic), TopicHit(Lower(topic.GetOr(""))))),
                 When(hasCode.Some?, HasCodeIs(hasCode.GetOr(false))))(v)
            == Listed(year, topic, hasCode)(v)
  {
  }

  /** The three filters in a row keep the same videos as one filter by all
      three conditions: the listing is the first `limit` videos that meet them. */
  lemma ListedVideosIsOneFilter(all: seq<Video>, year: Option<string>, topic: Option<string>,
                                hasCode: Option<bool>, limit: int)
    ensures ListedVideos(all, year, topic, hasCode, limit) == Prefix(Filter(all, Listed(year, topic, hasCode)), limit)
  {
    var yp := When(YearFilterOn(year), YearIs(year.GetOr("")));
    var tp := When(Truthy(topic), TopicHit(Lower(topic.GetOr(""))));
    var cp := When(hasCode.Some?, HasCodeIs(hasCode.GetOr(false)));
    var byYear := if YearFilterOn(year) then Filter(all, YearIs(year.value)) else all;
    var byTopic := if Truthy(topic) then Filter(byYear, TopicHit(Lower(topic.value))) else byYear;
    FilterWhen(all, YearFilterOn(year), YearIs(year.GetOr("")));
    FilterWhen(byYear, Truthy(topic), TopicHit(Lower(topic.GetOr(""))));
    FilterWhen(byTopic, hasCode.Some?, HasCodeIs(hasCode.GetOr(false)));
    FilterFilter(all, yp, tp);
    FilterFilter(all, Both(yp, tp), cp);
    forall v ensures Both(Both(yp, tp), cp)(v) == Listed(year, topic, hasCode)(v) {
      ListedIsBoth(year, topic, hasCode, v);
    }
    FilterExt(all, Both(Both(yp, tp), cp), Listed(year, topic, hasCode));
  }

  /** The listing keeps the summary-list order, holds at most `limit` videos,
      and every listed video meets the three filters. */
  lemma ListedVideosSound(all: seq<Video>, year: Option<string>, topic: Option<string>,
                          hasCode: Option<bool>, limit: int)
    ensures var r := ListedVideos(all, year, topic, hasCode, limit);
            && IsSubseq(r, all)
            && (limit >= 0 ==> |r| <= limit)
            && forall v :: v in r ==> ListCriteria(year, topic, hasCode, v)
  {
    var f := Filter(all, Listed(year, topic, hasCode));
    ListedVideosIsOneFilter(all, year, topic, hasCode, limit);
    PrefixIsSubseq(f, limit);
    FilterIsSubseq(all, Listed(year, topic, hasCode));
    SubseqTrans(Prefix(f, limit), f, all);
    PrefixBound(f, limit);
    forall v | v in Prefix(f, limit) ensures ListCriteria(year, topic, hasCode, v) {
      SubseqMembers(Prefix(f, limit), f, v);
      FilterMembers(all, Listed(year, topic, hasCode), v);
    }
  }

  /** The "Filter Conditions" line: the filters that were applied. */
  function FilterConditions(year: Option<string>, topic: Option<string>, hasCode: Option<bool>): seq<string> {
    (if YearFilterOn(year) then ["Year: " + year.value] else [])
    + (if Truthy(topic) then ["Topic: " + topic.value] else [])
    + (if hasCode.Some? then ["Has Code: " + (if hasCode.value then "Yes" else "No")] else [])
  }

  /** The content of the listing: the filter conditions, the number of videos
      and the videos by year. */
  datatype VideoList = VideoList(conditions: seq<string>, count: nat, groups: seq<YearGroup>)

  /** What `format_video_list` produces, or the message of what it raises. */
  function VideoListOf(vs: seq<Video>, year: Option<string>, topic: Option<string>, hasCode: Option<bool>)
    : Result<Output<VideoList>, string>
  {
    if vs == [] then Success(Text(NoVideosText))
    else
      match YearGroups(vs)
      case Failure(e) => Failure(e)
      case Success(groups) => Success(Report(VideoList(FilterConditions(year, topic, hasCode), |vs|, groups)))
  }

  /** What `list_wwdc_videos` returns for the archive. */
  function ListSpec(c: Corpus, year: Option<string>, topic: Option<string>, hasCode: Option<bool>, limit: int)
    : Output<VideoList>
  {
    match AllVideosSpec(c)
    case Failure(e) => Text(ListError(e))
    case Success(all) =>
      match VideoListOf(ListedVideos(all, year, topic, hasCode, limit), year, topic, hasCode)
      case Failure(e) => Text(ListError(e))
      case Success(out) => out
  }

  /** A report of `format_video_list` counts all of its (non-empty) input, and
      its groups, newest first, hold exactly input videos of the group's year. */
  lemma VideoListOfSound(vs: seq<Video>, year: Option<string>, topic: Option<string>, hasCode: Option<bool>)
    requires VideoListOf(vs, year, topic, hasCode).Success? && VideoListOf(vs, year, topic, hasCode).value.Report?
    ensures var l := VideoListOf(vs, year, topic, hasCode).value.report;
            && l.count == |vs| > 0
            && (forall i, j :: 0 <= i < j < |l.groups| ==> IntKey(l.groups[i].year) >= IntKey(l.groups[j].year))
            && (forall i, v :: 0 <= i < |l.groups| && v in l.groups[i].videos ==> v.year == l.groups[i].year && v in vs)
  {
    YearGroupsCorrect(vs);
    var gs := YearGroups(vs).value;
    forall i, v | 0 <= i < |gs| && v in gs[i].videos ensures v.year == gs[i].year && v in vs {
      FilterMembers(vs, YearIs(gs[i].year), v);
    }
  }

  /** A listing report counts between one and `limit` videos; its groups are
      newest first and hold videos of the summary list that meet the filters. */
  lemma ListSpecSound(c: Corpus, year: Option<string>, topic: Option<string>, hasCode: Option<bool>, limit: int)
    requires ListSpec(c, year, topic, hasCode, limit).Report?
    ensures var l := ListSpec(c, year, topic, hasCode, limit).report;
            && 0 < l.count && (limit >= 0 ==> l.count <= limit)
            && (forall i, j :: 0 <= i < j < |l.groups| ==> IntKey(l.groups[i].year) >= IntKey(l.groups[j].year))
            && (forall i, v :: 0 <= i < |l.groups| && v in l.groups[i].videos ==>
                  v.year == l.groups[i].year && ListCriteria(year, topic, hasCode, v)
                  && v in AllVideosSpec(c).value)
  {
    var all := AllVideosSpec(c).value;
    var vs := ListedVideos(all, year, topic, hasCode, limit);
    assert ListSpec(c, year, topic, hasCode, limit) == VideoListOf(vs, year, topic, hasCode).value;
    ListedVideosSound(all, year, topic, hasCode, limit);
    VideoListOfSound(vs, year, topic, hasCode);
    forall v | v in vs ensures v in all {
      SubseqMembers(vs, all, v);
    }
  }

  /** `format_video_list`. */
  method FormatVideoList(vs: seq<Video>, year: Option<string>, topic: Option<string>, hasCode: Option<bool>)
    returns (r: Result<Output<VideoList>, string>)
    ensures r == VideoListOf(vs, year, topic, hasCode)
  {
    if vs == [] {
      return Success(Text(NoVideosText));
    }
    var conditions: seq<string> := [];
    if YearFilterOn(year) {
      conditions := conditions + ["Year: " + year.value];
    }
    if Truthy(topic) {
      conditions := conditions + ["Topic: " + topic.value];
    }
    if hasCode.Some? {
      conditions := conditions + ["Has Code: " + (if hasCode.value then "Yes" else "No")];
    }
    assert conditions == FilterConditions(year, topic, hasCode);
    var groups := GroupVideosByYear(vs);
    if groups.Failure? {
      return Failure(groups.error);
    }
    return Success(Report(VideoList(conditions, |vs|, groups.value)));
  }

  /** `list_wwdc_videos`. */
  method ListWwdcVideos(ds: DataSource, year: Option<string>, topic: Option<string>, hasCode: Option<bool>, limit: int)
    returns (out: Output<VideoList>)
    requires ds.Valid()
    modifies ds
    ensures ds.Valid()
    ensures out == ListSpec(ds.corpus, year, topic, hasCode, limit)
  {
    var all := ds.LoadAllVideos();
    if all.Failure? {
      return Text(ListError(all.error));
    }
    var filtered := all.value;
    if YearFilterOn(year) {
      filtered := Filter(filtered, YearIs(year.value));
    }
    if Truthy(topic) {
      filtered := Filter(filtered, TopicHit(Lower(topic.value)));
    }
    if hasCode.Some? {
      filtered := Filter(filtered, HasCodeIs(hasCode.value));
    }
    var limited := Prefix(filtered, limit);
    assert limited == ListedVideos(all.value, year, topic, hasCode, limit);
    var r := FormatVideoList(limited, year, topic, hasCode);
    if r.Failure? {
      return Text(ListError(r.error));
    }
    return r.value;
  }
}
