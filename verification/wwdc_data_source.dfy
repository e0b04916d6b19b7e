/** The WWDC data source: process-wide caches over the bundled archive files.
    The caches are the fields of `DataSource`; `Valid` ties every cached value to
    the archive, so each loader returns what a fresh read would. */
module WwdcDataSource {
  import opened Wrappers
  import opened PyStr
  import opened PySeq
  import opened OrderedDict
  import opened WwdcTypes
  import Constants

  // ---------------------------------------------------------------------------
  // Keys and paths

  function VideoKey(year: string, videoId: string): string {
    year + "-" + videoId
  }

  function VideoPath(key: string): string {
    "videos/" + key + ".json"
  }

  /** Distinct keys name distinct files. */
  lemma VideoPathInjective(k1: string, k2: string)
    requires VideoPath(k1) == VideoPath(k2)
    ensures k1 == k2
  {
    var p := VideoPath(k1);
    assert k1 == p[7..|p| - 5];
    assert k2 == p[7..|p| - 5];
  }

  // ---------------------------------------------------------------------------
  // The summary list: `videos.sort(key=lambda x: x.get("year", ""), reverse=True)`

  /** `a` may come before `b`: its year is not smaller. */
  function YearDesc(a: Video, b: Video): bool {
    StrLe(b.year, a.year)
  }

  lemma YearDescPreorder()
    ensures TotalPreorder(YearDesc)
  {
    forall a: Video, b: Video ensures YearDesc(a, b) || YearDesc(b, a) {
      StrLeTotal(a.year, b.year);
    }
    forall a: Video, b: Video, c: Video | YearDesc(a, b) && YearDesc(b, c) ensures YearDesc(a, c) {
      StrLeTrans(c.year, b.year, a.year);
    }
  }

  function SortedVideoList(list: seq<Video>): seq<Video> {
    SortBy(list, YearDesc)
  }

  function YearIs(y: string): Video -> bool {
    (v: Video) => v.year == y
  }

  /** Any video of year `y`, as a representative of its tie class. */
  function VideoOfYear(y: string): (v: Video)
    ensures v.year == y
  {
    Video("", y, "", "", None, "", [], false, false, None, None, None,
          VideoResources(None, None, None, None, None), None, None, None)
  }

  /** The sorted list has non-increasing years, holds the same videos, and keeps
      the archive order among videos of the same year (the sort is stable). */
  lemma SortedVideoListCorrect(list: seq<Video>, y: string)
    ensures forall i, j :: 0 <= i < j < |SortedVideoList(list)| ==>
              StrLe(SortedVideoList(list)[j].year, SortedVideoList(list)[i].year)
    ensures multiset(SortedVideoList(list)) == multiset(list)
    ensures Filter(SortedVideoList(list), YearIs(y)) == Filter(list, YearIs(y))
  {
    YearDescPreorder();
    SortByCorrect(list, YearDesc);
    var z := VideoOfYear(y);
    SortByStable(list, YearDesc, z);
    forall v: Video ensures TiesWith(z, YearDesc)(v) == YearIs(y)(v) {
      if v.year == y {
        StrLeRefl(y);
      } else if StrLe(z.year, v.year) && StrLe(v.year, z.year) {
        StrLeAntisym(z.year, v.year);
      }
    }
    FilterExt(SortedVideoList(list), TiesWith(z, YearDesc), YearIs(y));
    FilterExt(list, TiesWith(z, YearDesc), YearIs(y));
  }

  // ---------------------------------------------------------------------------
  // The by-year and by-topic indices, as built by one pass over the list

  /** `m.setdefault(k, []).append(v)`. */
  function AddTo(m: map<string, seq<Video>>, k: string, v: Video): map<string, seq<Video>> {
    m[k := (if k in m then m[k] else []) + [v]]
  }

  function YearIndex(vs: seq<Video>): map<string, seq<Video>>
    decreases |vs|
  {
    if vs == [] then map[]
    else AddTo(YearIndex(vs[..|vs| - 1]), vs[|vs| - 1].year, vs[|vs| - 1])
  }

  /** Appends `v` once to the bucket of each entry of `ts`, left to right. */
  function AddToAll(m: map<string, seq<Video>>, ts: seq<string>, v: Video): map<string, seq<Video>>
    decreases |ts|
  {
    if ts == [] then m
    else AddTo(AddToAll(m, ts[..|ts| - 1], v), ts[|ts| - 1], v)
  }

  function TopicIndex(vs: seq<Video>): map<string, seq<Video>>
    decreases |vs|
  {
    if vs == [] then map[]
    else AddToAll(TopicIndex(vs[..|vs| - 1]), vs[|vs| - 1].topics, vs[|vs| - 1])
  }

  /** `index.get(k, [])`. */
  function Lookup(m: map<string, seq<Video>>, k: string): seq<Video> {
    if k in m then m[k] else []
  }

  /** The by-year bucket of `y` is the videos of year `y`, each once, in list
      order; the index has a (non-empty) bucket exactly for the years present. */
  lemma {:induction false} YearIndexBucket(vs: seq<Video>, y: string)
    ensures Lookup(YearIndex(vs), y) == Filter(vs, YearIs(y))
    ensures y in YearIndex(vs) <==> Filter(vs, YearIs(y)) != []
    decreases |vs|
  {
    if vs != [] {
      var init := vs[..|vs| - 1];
      YearIndexBucket(init, y);
      assert vs == init + [vs[|vs| - 1]];
      FilterAppend(init, [vs[|vs| - 1]], YearIs(y));
    }
  }

  /** How many entries of `ts` are `t`. */
  function Occurrences(ts: seq<string>, t: string): nat
    decreases |ts|
  {
    if ts == [] then 0
    else Occurrences(ts[..|ts| - 1], t) + (if ts[|ts| - 1] == t then 1 else 0)
  }

  lemma {:induction false} OccurrencesPositive(ts: seq<string>, t: string)
    ensures Occurrences(ts, t) > 0 <==> t in ts
    decreases |ts|
  {
    if ts != [] {
      OccurrencesPositive(ts[..|ts| - 1], t);
      assert ts == ts[..|ts| - 1] + [ts[|ts| - 1]];
    }
  }

  function Repeat(v: Video, n: nat): (r: seq<Video>)
    ensures |r| == n && forall i :: 0 <= i < n ==> r[i] == v
  {
    seq(n, _ => v)
  }

  /** The bucket the index pass builds for topic `t`: the videos in list order,
      each repeated once per entry `t` in its topics. */
  function TopicBucket(vs: seq<Video>, t: string): seq<Video>
    decreases |vs|
  {
    if vs == [] then []
    else TopicBucket(vs[..|vs| - 1], t) + Repeat(vs[|vs| - 1], Occurrences(vs[|vs| - 1].topics, t))
  }

  lemma {:induction false} AddToAllLookup(m: map<string, seq<Video>>, ts: seq<string>, v: Video, t: string)
    ensures Lookup(AddToAll(m, ts, v), t) == Lookup(m, t) + Repeat(v, Occurrences(ts, t))
    ensures t in AddToAll(m, ts, v) <==> t in m || t in ts
    decreases |ts|
  {
    if ts != [] {
      var init := ts[..|ts| - 1];
      AddToAllLookup(m, init, v, t);
      assert ts == init + [ts[|ts| - 1]];
      if ts[|ts| - 1] == t {
        assert Repeat(v, Occurrences(ts, t)) == Repeat(v, Occurrences(init, t)) + [v];
      }
    }
  }

  /** The by-topic bucket of `t` is exactly `TopicBucket`: list order, one copy
      of a video per entry `t` in its topics; the index has a bucket exactly
      for the topics some video lists. */
  lemma {:induction false} TopicIndexBucket(vs: seq<Video>, t: string)
    ensures Lookup(TopicIndex(vs), t) == TopicBucket(vs, t)
    ensures t in TopicIndex(vs) <==> exists v :: v in vs && t in v.topics
    decreases |vs|
  {
    if vs != [] {
      var init := vs[..|vs| - 1];
      var last := vs[|vs| - 1];
      TopicIndexBucket(init, t);
      AddToAllLookup(TopicIndex(init), last.topics, last, t);
      assert vs == init + [last];
      if t in TopicIndex(vs) && t !in last.topics {
        var v :| v in init && t in v.topics;
        assert v in vs;
      }
      if exists v :: v in vs && t in v.topics {
        var v :| v in vs && t in v.topics;
        if v != last {
          assert v in init;
        }
      }
    }
  }

  /** A video is in the bucket of `t` exactly when it is in the list and lists `t`. */
  lemma {:induction false} TopicBucketMembers(vs: seq<Video>, t: string, w: Video)
    ensures w in TopicBucket(vs, t) <==> w in vs && t in w.topics
    decreases |vs|
  {
    if vs != [] {
      var init := vs[..|vs| - 1];
      var last := vs[|vs| - 1];
      TopicBucketMembers(init, t, w);
      OccurrencesPositive(last.topics, t);
      assert vs == init + [last];
      if w == last && t in w.topics {
        assert TopicBucket(vs, t)[|TopicBucket(init, t)|] == w;
      }
    }
  }

  function ListsTopic(t: string): Video -> bool {
    (v: Video) => t in v.topics
  }

  /** When no video lists a topic twice, the bucket is the plain filter of the list. */
  lemma {:induction false} TopicBucketIsFilter(vs: seq<Video>, t: string)
    requires forall v :: v in vs ==> Occurrences(v.topics, t) <= 1
    ensures TopicBucket(vs, t) == Filter(vs, ListsTopic(t))
    decreases |vs|
  {
    if vs != [] {
      var init := vs[..|vs| - 1];
      var last := vs[|vs| - 1];
      assert vs == init + [last];
      TopicBucketIsFilter(init, t);
      OccurrencesPositive(last.topics, t);
      FilterAppend(init, [last], ListsTopic(t));
      if t in last.topics {
        assert Repeat(last, Occurrences(last.topics, t)) == [last];
      } else {
        assert Repeat(last, Occurrences(last.topics, t)) == [];
      }
    }
  }

  /** A video listing `t` twice appears twice in its bucket, as the index pass appends it once per entry. */
  lemma TopicBucketRepeats(v: Video, t: string)
    requires v.topics == [t, t]
    ensures TopicBucket([v], t) == [v, v]
  {
    assert [v][..0] == [];
    var one: seq<string> := [t];
    assert one[..0] == [];
    assert Occurrences(one, t) == 1;
    assert v.topics[..1] == one;
    assert Occurrences(v.topics, t) == 2;
  }

  // ---------------------------------------------------------------------------
  // Topics by id: `{t["id"]: t for t in metadata["topics"]}`

  function TopicsMap(ts: seq<TopicInfo>): map<string, TopicInfo>
    decreases |ts|
  {
    if ts == [] then map[]
    else TopicsMap(ts[..|ts| - 1])[ts[|ts| - 1].id := ts[|ts| - 1]]
  }

  /** An id is mapped exactly when some topic has it, and it is mapped to the
      last such topic. */
  lemma {:induction false} TopicsMapLastWins(ts: seq<TopicInfo>, id: string)
    ensures id in TopicsMap(ts) <==> exists i :: 0 <= i < |ts| && ts[i].id == id
    ensures id in TopicsMap(ts) ==>
              exists i :: 0 <= i < |ts| && ts[i] == TopicsMap(ts)[id] && ts[i].id == id
                          && forall j :: i < j < |ts| ==> ts[j].id != id
    decreases |ts|
  {
    if ts != [] {
      var n := |ts| - 1;
      var init := ts[..n];
      TopicsMapLastWins(init, id);
      if ts[n].id != id {
        if id in TopicsMap(init) {
          var i :| 0 <= i < |init| && init[i] == TopicsMap(init)[id] && init[i].id == id
                   && forall j :: i < j < |init| ==> init[j].id != id;
          assert ts[i] == init[i];
          assert forall j :: i < j < |ts| ==> ts[j].id != id by {
            forall j | i < j < |ts| ensures ts[j].id != id {
              if j < n {
                assert ts[j] == init[j];
              }
            }
          }
        }
        if exists i :: 0 <= i < |ts| && ts[i].id == id {
          var i :| 0 <= i < |ts| && ts[i].id == id;
          assert i < n && init[i].id == id;
        }
      } else {
        assert ts[n] == TopicsMap(ts)[id];
      }
    }
  }

  // ---------------------------------------------------------------------------
  // What each loader returns, as a function of the archive

  const MetadataError := "Failed to load WWDC metadata."
  const VideoListError := "Failed to load WWDC video list"

  function MetadataSpec(c: Corpus): Result<Option<GlobalMetadata>, string> {
    match c.metadata
    case None => Failure(MetadataError)
    case Some(m) => Success(m)
  }

  function TopicSpec(c: Corpus, topicId: string): Result<Option<TopicInfo>, string> {
    match c.metadata
    case None => Failure(MetadataError)
    case Some(None) => Success(None)
    case Some(Some(m)) =>
      var tm := TopicsMap(m.topics);
      Success(if topicId in tm then Some(tm[topicId]) else None)
  }

  function VideoSpec(c: Corpus, year: string, videoId: string): Result<Video, string> {
    var path := VideoPath(VideoKey(year, videoId));
    if path in c.videos then Success(c.videos[path])
    else Failure("Video not found: " + VideoKey(year, videoId))
  }

  function AllVideosSpec(c: Corpus): Result<seq<Video>, string> {
    match c.videoList
    case None => Failure(VideoListError)
    case Some(list) => Success(SortedVideoList(list))
  }

  // ---------------------------------------------------------------------------
  // The caches

  class DataSource {
    /** The bundled archive, read through `read_bundled_file`. */
    const corpus: Corpus

    /** `_global_metadata_cache` while it holds a truthy value. */
    var metadataCache: Option<GlobalMetadata>
    var topicsCache: map<string, TopicInfo>
    /** `_all_videos_cache`; `[]` stands for both `None` and an empty list. */
    var allVideosCache: seq<Video>
    var videosByYear: map<string, seq<Video>>
    var videosByTopic: map<string, seq<Video>>
    var videoDataCache: Dict<string, Video>

    ghost predicate Valid()
      reads this
    {
      && videoDataCache.Valid()
      && videoDataCache.Size() <= Constants.VideoCacheSize
      && (forall k :: k in videoDataCache.values ==>
            VideoPath(k) in corpus.videos && corpus.videos[VideoPath(k)] == videoDataCache.values[k])
      && (allVideosCache != [] ==>
            corpus.videoList.Some? && allVideosCache == SortedVideoList(corpus.videoList.value))
      && videosByYear == YearIndex(allVideosCache)
      && videosByTopic == TopicIndex(allVideosCache)
      && (metadataCache.Some? ==> corpus.metadata == Some(metadataCache))
      && topicsCache == (if metadataCache.Some? then TopicsMap(metadataCache.value.topics) else map[])
    }

    constructor (corpus: Corpus)
      ensures Valid()
      ensures this.corpus == corpus
      ensures metadataCache == None && allVideosCache == [] && videoDataCache.Size() == 0
    {
      this.corpus := corpus;
      metadataCache := None;
      topicsCache := map[];
      allVideosCache := [];
      videosByYear := map[];
      videosByTopic := map[];
      videoDataCache := Empty();
    }

    /** `_prune_cache`: at 200 entries, evict the first-inserted one. */
    method PruneCache()
      requires Valid()
      modifies this`videoDataCache
      ensures Valid()
      ensures videoDataCache == old(videoDataCache).PruneOldest(Constants.VideoCacheSize)
      ensures videoDataCache.Size() < Constants.VideoCacheSize
    {
      videoDataCache := videoDataCache.PruneOldest(Constants.VideoCacheSize);
    }

    /** `load_global_metadata`: reuse a truthy cache, otherwise read `index.json`
        and, when it is truthy, rebuild the topics-by-id map. */
    method LoadGlobalMetadata() returns (r: Result<Option<GlobalMetadata>, string>)
      requires Valid()
      modifies this`metadataCache, this`topicsCache
      ensures Valid()
      ensures r == MetadataSpec(corpus)
      ensures old(metadataCache).Some? ==> metadataCache == old(metadataCache)
      ensures r.Success? && r.value.Some? ==> metadataCache == r.value
    {
      if metadataCache.Some? {
        return Success(metadataCache);
      }
      match corpus.metadata {
        case None =>
          r := Failure(MetadataError);
        case Some(parsed) =>
          if parsed.Some? {
            metadataCache := parsed;
            topicsCache := TopicsMap(parsed.value.topics);
          }
          r := Success(parsed);
      }
    }

    /** `get_topic_by_id`: `None` for an id no topic has. */
    method GetTopicById(topicId: string) returns (r: Result<Option<TopicInfo>, string>)
      requires Valid()
      modifies this`metadataCache, this`topicsCache
      ensures Valid()
      ensures r == TopicSpec(corpus, topicId)
    {
      var m := LoadGlobalMetadata();
      if m.Failure? {
        return Failure(m.error);
      }
      r := Success(if topicId in topicsCache then Some(topicsCache[topicId]) else None);
    }

    /** `load_video_data`: a cache hit returns the cached record; a miss reads
        `videos/{year}-{id}.json`, prunes and caches it; a failed read leaves the
        cache as it was. */
    method LoadVideoData(year: string, videoId: string) returns (r: Result<Video, string>)
      requires Valid()
      modifies this`videoDataCache
      ensures Valid()
      ensures r == VideoSpec(corpus, year, videoId)
      ensures VideoKey(year, videoId) in old(videoDataCache.values) ==> videoDataCache == old(videoDataCache)
      ensures r.Failure? ==> videoDataCache == old(videoDataCache)
      ensures VideoKey(year, videoId) !in old(videoDataCache.values) && r.Success? ==>
                videoDataCache == old(videoDataCache).PruneOldest(Constants.VideoCacheSize).Set(VideoKey(year, videoId), r.value)
    {
      var key := VideoKey(year, videoId);
      if key in videoDataCache.values {
        return Success(videoDataCache.values[key]);
      }
      var path := VideoPath(key);
      if path !in corpus.videos {
        return Failure("Video not found: " + key);
      }
      var video := corpus.videos[path];
      PruneCache();
      assert key !in videoDataCache.values;
      videoDataCache := videoDataCache.Set(key, video);
      assert videoDataCache.Size() <= Constants.VideoCacheSize;
      r := Success(video);
    }

    /** The inner loop of the index pass: the video goes into the bucket of
        each entry of its topics, in order. */
    static method AddToTopics(byTopic: map<string, seq<Video>>, video: Video) returns (r: map<string, seq<Video>>)
      ensures r == AddToAll(byTopic, video.topics, video)
    {
      r := byTopic;
      var j := 0;
      while j < |video.topics|
        invariant 0 <= j <= |video.topics|
        invariant r == AddToAll(byTopic, video.topics[..j], video)
      {
        var topic := video.topics[j];
        assert video.topics[..j + 1][..j] == video.topics[..j];
        if topic !in r {
          r := r[topic := []];
        }
        r := r[topic := r[topic] + [video]];
        j := j + 1;
      }
      assert video.topics[..j] == video.topics;
    }

    /** The index loop of `load_all_videos`: fresh maps, then one pass that appends
        each video to its year bucket and to one bucket per entry of its topics. */
    method RebuildIndices(vs: seq<Video>)
      modifies this
      ensures videosByYear == YearIndex(vs) && videosByTopic == TopicIndex(vs)
      ensures metadataCache == old(metadataCache) && topicsCache == old(topicsCache)
      ensures allVideosCache == old(allVideosCache) && videoDataCache == old(videoDataCache)
    {
      var byYear: map<string, seq<Video>> := map[];
      var byTopic: map<string, seq<Video>> := map[];
      var i := 0;
      while i < |vs|
        invariant 0 <= i <= |vs|
        invariant byYear == YearIndex(vs[..i]) && byTopic == TopicIndex(vs[..i])
        modifies {}
      {
        var video := vs[i];
        assert vs[..i + 1][..i] == vs[..i];
        var year := video.year;
        if year !in byYear {
          byYear := byYear[year := []];
        }
        byYear := byYear[year := byYear[year] + [video]];
        byTopic := AddToTopics(byTopic, video);
        i := i + 1;
      }
      assert vs[..i] == vs;
      videosByYear := byYear;
      videosByTopic := byTopic;
    }

    /** `load_all_videos`: reuse a non-empty cache; otherwise read the list, sort
        it by year, newest first, cache it and rebuild both indices. */
    method LoadAllVideos() returns (r: Result<seq<Video>, string>)
      requires Valid()
      modifies this
      ensures Valid()
      ensures r == AllVideosSpec(corpus)
      ensures old(allVideosCache) != [] ==> allVideosCache == old(allVideosCache)
      ensures r.Success? ==> allVideosCache == r.value
      ensures videosByYear == YearIndex(allVideosCache) && videosByTopic == TopicIndex(allVideosCache)
      ensures metadataCache == old(metadataCache) && topicsCache == old(topicsCache)
      ensures videoDataCache == old(videoDataCache)
    {
      if allVideosCache != [] {
        return Success(allVideosCache);
      }
      if corpus.videoList.None? {
        return Failure(VideoListError);
      }
      var videos := SortedVideoList(corpus.videoList.value);
      allVideosCache := videos;
      RebuildIndices(videos);
      r := Success(videos);
    }

    /** `get_videos_by_year`: the videos of that year, in list order, or `[]`. */
    method GetVideosByYear(year: string) returns (r: Result<seq<Video>, string>)
      requires Valid()
      modifies this
      ensures Valid()
      ensures AllVideosSpec(corpus).Failure? ==> r == Failure(AllVideosSpec(corpus).error)
      ensures AllVideosSpec(corpus).Success? ==> r == Success(Filter(AllVideosSpec(corpus).value, YearIs(year)))
      ensures metadataCache == old(metadataCache) && videoDataCache == old(videoDataCache)
    {
      var all := LoadAllVideos();
      if all.Failure? {
        return Failure(all.error);
      }
      YearIndexBucket(allVideosCache, year);
      r := Success(Lookup(videosByYear, year));
    }

    /** `get_videos_by_topic`: the bucket of that topic, or `[]`; by
        `TopicBucketMembers` it holds exactly the videos that list the topic. */
    method GetVideosByTopic(topic: string) returns (r: Result<seq<Video>, string>)
      requires Valid()
      modifies this
      ensures Valid()
      ensures AllVideosSpec(corpus).Failure? ==> r == Failure(AllVideosSpec(corpus).error)
      ensures AllVideosSpec(corpus).Success? ==> r == Success(TopicBucket(AllVideosSpec(corpus).value, topic))
      ensures metadataCache == old(metadataCache) && videoDataCache == old(videoDataCache)
    {
      var all := LoadAllVideos();
      if all.Failure? {
        return Failure(all.error);
      }
      TopicIndexBucket(allVideosCache, topic);
      r := Success(Lookup(videosByTopic, topic));
    }
  }
}
