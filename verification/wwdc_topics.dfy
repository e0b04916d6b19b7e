/** `browse_wwdc_topics`: the list of all topics, or one topic with the videos
    that carry its name, grouped by year. */
module WwdcTopics {
  import opened Wrappers
  import opened PyStr
  import opened PySeq
  import opened WwdcTypes
  import opened WwdcDataSource
  import opened ToolOutput
  import opened WwdcReport
  import opened WwdcList

  function BrowseError(e: string): string {
    "Error: Failed to browse WWDC topics: " + e
  }

  /** The message of the `KeyError` raised by `metadata["topics"]` on an index that is `{}`. */
  const MissingTopicsError := "'topics'"

  function TopicVideosError(e: string): string {
    "Error loading topic videos: " + e
  }

  function TopicIds(ts: seq<TopicInfo>): (ids: seq<string>)
    ensures |ids| == |ts|
  {
    seq(|ts|, i requires 0 <= i < |ts| => ts[i].id)
  }

  function NotFoundText(topicId: string, ts: seq<TopicInfo>): string {
    "Topic \"" + topicId + "\" not found. Available topics: " + Join(", ", TopicIds(ts))
  }

  /** One entry of the topic list: the topic and its video count, shown when
      the statistics have a non-zero count for the topic's id. */
  datatype TopicEntry = TopicEntry(topic: TopicInfo, videoCount: Option<int>)

  function EntryOf(t: TopicInfo, byTopic: map<string, int>): TopicEntry {
    TopicEntry(t, if t.id in byTopic && byTopic[t.id] != 0 then Some(byTopic[t.id]) else None)
  }

  function TopicEntries(ts: seq<TopicInfo>, byTopic: map<string, int>): (es: seq<TopicEntry>)
    ensures |es| == |ts|
  {
    seq(|ts|, i requires 0 <= i < |ts| => EntryOf(ts[i], byTopic))
  }

  /** `next((t for t in topics if t["id"] == topic_id), None)`. */
  function FirstTopicWithId(ts: seq<TopicInfo>, id: string): (r: Option<TopicInfo>)
    decreases |ts|
  {
    if ts == [] then None
    else if ts[0].id == id then Some(ts[0])
    else FirstTopicWithId(ts[1..], id)
  }

  /** The first topic with the id, or `None` exactly when no topic has it. */
  lemma {:induction false} FirstTopicWithIdCorrect(ts: seq<TopicInfo>, id: string)
    ensures FirstTopicWithId(ts, id).None? <==> forall i :: 0 <= i < |ts| ==> ts[i].id != id
    ensures FirstTopicWithId(ts, id).Some? ==>
              exists i :: 0 <= i < |ts| && ts[i] == FirstTopicWithId(ts, id).value && ts[i].id == id
                          && forall j :: 0 <= j < i ==> ts[j].id != id
    decreases |ts|
  {
    if ts != [] && ts[0].id != id {
      var rest := ts[1..];
      FirstTopicWithIdCorrect(rest, id);
      forall j | 0 <= j < |rest| ensures rest[j] == ts[j + 1] { }
      if FirstTopicWithId(rest, id).Some? {
        var i :| 0 <= i < |rest| && rest[i] == FirstTopicWithId(rest, id).value && rest[i].id == id
                 && forall j :: 0 <= j < i ==> rest[j].id != id;
        assert ts[i + 1] == rest[i];
        assert forall j :: 0 <= j < i + 1 ==> ts[j].id != id by {
          forall j | 0 <= j < i + 1 ensures ts[j].id != id {
            if j > 0 {
              assert ts[j] == rest[j - 1];
            }
          }
        }
      }
    }
  }

  /** With distinct topic ids, the first topic with an id is the one the
      topics-by-id map of the data source holds for it. */
  lemma FirstTopicAgreesWithMap(ts: seq<TopicInfo>, id: string)
    requires Distinct(TopicIds(ts))
    ensures FirstTopicWithId(ts, id) == if id in TopicsMap(ts) then Some(TopicsMap(ts)[id]) else None
  {
    FirstTopicWithIdCorrect(ts, id);
    TopicsMapLastWins(ts, id);
    if FirstTopicWithId(ts, id).Some? {
      var i :| 0 <= i < |ts| && ts[i] == FirstTopicWithId(ts, id).value && ts[i].id == id
               && forall j :: 0 <= j < i ==> ts[j].id != id;
      var k :| 0 <= k < |ts| && ts[k] == TopicsMap(ts)[id] && ts[k].id == id
               && forall j :: k < j < |ts| ==> ts[j].id != id;
      assert TopicIds(ts)[i] == TopicIds(ts)[k];
    }
  }

  /** The videos part of a topic's page. */
  datatype TopicVideos =
    | VideosOmitted
    | VideosFailed(message: string)
    | VideosShown(count: nat, groups: Result<seq<YearGroup>, string>)

  datatype TopicsReport =
    | TopicList(count: nat, entries: seq<TopicEntry>)
    | TopicDetail(topic: TopicInfo, videos: TopicVideos)

  /** The video filter of a topic page: the year unless it is missing, empty
      or "all", and the topic's name among the video's topics, exactly. */
  predicate InTopic(v: Video, name: string, year: Option<string>) {
    && !(YearFilterOn(year) && v.year != year.value)
    && name in v.topics
  }

  function TopicFilter(name: string, year: Option<string>): Video -> bool {
    (v: Video) => InTopic(v, name, year)
  }

  /** The videos of a topic's page, from the summary list. */
  function TopicVideosOf(all: seq<Video>, name: string, year: Option<string>, limit: int): (shown: TopicVideos)
    ensures shown.VideosShown?
  {
    var vs := Prefix(Filter(all, TopicFilter(name, year)), limit);
    VideosShown(|vs|, match YearGroups(vs)
                      case Failure(e) => Failure(TopicVideosError(e))
                      case Success(gs) => Success(gs))
  }

  function TopicVideosSpec(c: Corpus, name: string, includeVideos: bool, year: Option<string>, limit: int): TopicVideos {
    if !includeVideos then VideosOmitted
    else
      match AllVideosSpec(c)
      case Failure(e) => VideosFailed(TopicVideosError(e))
      case Success(all) => TopicVideosOf(all, name, year, limit)
  }

  /** What `browse_wwdc_topics` returns for the archive. */
  function BrowseSpec(c: Corpus, topicId: Option<string>, includeVideos: bool, year: Option<string>, limit: int)
    : Output<TopicsReport>
  {
    match MetadataSpec(c)
    case Failure(e) => Text(BrowseError(e))
    case Success(None) => Text(BrowseError(MissingTopicsError))
    case Success(Some(m)) =>
      if !Truthy(topicId) then Report(TopicList(|m.topics|, TopicEntries(m.topics, m.statistics.byTopic)))
      else
        match FirstTopicWithId(m.topics, topicId.value)
        case None => Text(NotFoundText(topicId.value, m.topics))
        case Some(t) => Report(TopicDetail(t, TopicVideosSpec(c, t.name, includeVideos, year, limit)))
  }

  /** Without a topic id the report lists every topic of the index, in order,
      with the count of the statistics exactly when it is non-zero. */
  lemma BrowseListSound(c: Corpus, includeVideos: bool, year: Option<string>, limit: int, topicId: Option<string>)
    requires c.metadata.Some? && c.metadata.value.Some? && !Truthy(topicId)
    ensures var m := c.metadata.value.value;
            var out := BrowseSpec(c, topicId, includeVideos, year, limit);
            && out.Report? && out.report.TopicList?
            && out.report.count == |m.topics| == |out.report.entries|
            && forall i :: 0 <= i < |m.topics| ==>
                 && out.report.entries[i].topic == m.topics[i]
                 && (out.report.entries[i].videoCount.Some? <==>
                       m.topics[i].id in m.statistics.byTopic && m.statistics.byTopic[m.topics[i].id] != 0)
  {
  }

  /** A topic page shows the first topic with the requested id; an unknown id
      gets the not-found text naming every id. */
  lemma BrowseDetailSound(c: Corpus, topicId: Option<string>, includeVideos: bool, year: Option<string>, limit: int)
    requires c.metadata.Some? && c.metadata.value.Some? && Truthy(topicId)
    ensures var m := c.metadata.value.value;
            var out := BrowseSpec(c, topicId, includeVideos, year, limit);
            && (out.Report? ==> out.report.TopicDetail? && out.report.topic.id == topicId.value
                                && exists i :: 0 <= i < |m.topics| && m.topics[i] == out.report.topic
                                               && forall j :: 0 <= j < i ==> m.topics[j].id != topicId.value)
            && (out.Text? <==> forall i :: 0 <= i < |m.topics| ==> m.topics[i].id != topicId.value)
            && (out.Text? ==> out.text == NotFoundText(topicId.value, m.topics))
  {
    FirstTopicWithIdCorrect(c.metadata.value.value.topics, topicId.value);
  }

  /** The videos of a topic page: at most `limit`, all from the summary list,
      each carrying the topic's name and of the requested year; the groups
      come newest first and hold exactly those videos. */
  lemma TopicVideosSound(all: seq<Video>, name: string, year: Option<string>, limit: int)
    ensures var shown := TopicVideosOf(all, name, year, limit);
            var vs := Prefix(Filter(all, TopicFilter(name, year)), limit);
            && shown.count == |vs| && (limit >= 0 ==> shown.count <= limit)
            && IsSubseq(vs, all)
            && (forall v :: v in vs ==> InTopic(v, name, year))
            && (shown.groups.Success? ==>
                  && (forall i, j :: 0 <= i < j < |shown.groups.value| ==>
                        IntKey(shown.groups.value[i].year) >= IntKey(shown.groups.value[j].year))
                  && (forall i, v :: 0 <= i < |shown.groups.value| && v in shown.groups.value[i].videos ==>
                        v in vs && v.year == shown.groups.value[i].year))
            && (shown.groups.Failure? <==> exists v :: v in vs && ParseInt(v.year).None?)
  {
    var f := Filter(all, TopicFilter(name, year));
    var vs := Prefix(f, limit);
    PrefixBound(f, limit);
    PrefixIsSubseq(f, limit);
    FilterIsSubseq(all, TopicFilter(name, year));
    SubseqTrans(vs, f, all);
    forall v | v in vs ensures InTopic(v, name, year) {
      SubseqMembers(vs, f, v);
      FilterMembers(all, TopicFilter(name, year), v);
    }
    YearGroupsFail(vs);
    if YearGroups(vs).Success? {
      YearGroupsCorrect(vs);
      var gs := YearGroups(vs).value;
      forall i, v | 0 <= i < |gs| && v in gs[i].videos ensures v in vs && v.year == gs[i].year {
        FilterMembers(vs, YearIs(gs[i].year), v);
      }
    }
  }

  // ---------------------------------------------------------------------------
  // The imperative tool

  /** The loop that writes one entry per topic. */
  method ListTopics(ts: seq<TopicInfo>, byTopic: map<string, int>) returns (entries: seq<TopicEntry>)
    ensures entries == TopicEntries(ts, byTopic)
  {
    entries := [];
    var i := 0;
    while i < |ts|
      invariant 0 <= i <= |ts|
      invariant entries == TopicEntries(ts[..i], byTopic)
    {
      var t := ts[i];
      var stats: Option<int> := if t.id in byTopic then Some(byTopic[t.id]) else None;
      if stats.Some? && stats.value != 0 {
        entries := entries + [TopicEntry(t, stats)];
      } else {
        entries := entries + [TopicEntry(t, None)];
      }
      i := i + 1;
    }
    assert ts[..i] == ts;
  }

  /** The generator scan of `next(...)`. */
  method FindTopic(ts: seq<TopicInfo>, id: string) returns (r: Option<TopicInfo>)
    ensures r == FirstTopicWithId(ts, id)
  {
    var i := 0;
    while i < |ts|
      invariant 0 <= i <= |ts|
      invariant FirstTopicWithId(ts[i..], id) == FirstTopicWithId(ts, id)
    {
      if ts[i].id == id {
        return Some(ts[i]);
      }
      assert ts[i..][1..] == ts[i + 1..];
      i := i + 1;
    }
    return None;
  }

  /** The loop that keeps the videos of the topic. */
  method SelectTopicVideos(all: seq<Video>, name: string, year: Option<string>) returns (vs: seq<Video>)
    ensures vs == Filter(all, TopicFilter(name, year))
  {
    vs := [];
    var i := 0;
    while i < |all|
      invariant 0 <= i <= |all|
      invariant vs == Filter(all[..i], TopicFilter(name, year))
    {
      var v := all[i];
      assert all[..i + 1] == all[..i] + [v];
      FilterAppend(all[..i], [v], TopicFilter(name, year));
      i := i + 1;
      if YearFilterOn(year) && v.year != year.value {
        continue;
      }
      if name in v.topics {
        vs := vs + [v];
      }
    }
    assert all[..i] == all;
  }

  /** The videos part of a topic page; failures are caught and reported in the page. */
  method LoadTopicVideos(ds: DataSource, name: string, includeVideos: bool, year: Option<string>, limit: int)
    returns (shown: TopicVideos)
    requires ds.Valid()
    modifies ds
    ensures ds.Valid()
    ensures shown == TopicVideosSpec(ds.corpus, name, includeVideos, year, limit)
  {
    if !includeVideos {
      return VideosOmitted;
    }
    var all := ds.LoadAllVideos();
    if all.Failure? {
      return VideosFailed(TopicVideosError(all.error));
    }
    var vs := SelectTopicVideos(all.value, name, year);
    vs := Prefix(vs, limit);
    var groups := GroupVideosByYear(vs);
    if groups.Failure? {
      return VideosShown(|vs|, Failure(TopicVideosError(groups.error)));
    }
    return VideosShown(|vs|, Success(groups.value));
  }

  /** `browse_wwdc_topics`. */
  method BrowseWwdcTopics(ds: DataSource, topicId: Option<string>, includeVideos: bool, year: Option<string>, limit: int)
    returns (out: Output<TopicsReport>)
    requires ds.Valid()
    modifies ds
    ensures ds.Valid()
    ensures out == BrowseSpec(ds.corpus, topicId, includeVideos, year, limit)
  {
    var metadata := ds.LoadGlobalMetadata();
    if metadata.Failure? {
      return Text(BrowseError(metadata.error));
    }
    if metadata.value.None? {
      return Text(BrowseError(MissingTopicsError));
    }
    var m := metadata.value.value;
    if !Truthy(topicId) {
      var entries := ListTopics(m.topics, m.statistics.byTopic);
      return Report(TopicList(|m.topics|, entries));
    }
    var topic := FindTopic(m.topics, topicId.value);
    if topic.None? {
      return Text(NotFoundText(topicId.value, m.topics));
    }
    var shown := LoadTopicVideos(ds, topic.value.name, includeVideos, year, limit);
    return Report(TopicDetail(topic.value, shown));
  }
}
