/** Detail-file paths: reading the year and the id out of a path such as
    `videos/2024-10015.json`, and `load_videos_data`, which loads the records
    of a list of paths through the data source. */
module WwdcFiles {
  import opened Wrappers
  import opened PyStr
  import opened WwdcTypes
  import opened WwdcDataSource

  predicate AllDigits(s: string) {
    forall i :: 0 <= i < |s| ==> IsDigit(s[i])
  }

  /** The length of the run of digits that ends `s`. */
  function TrailingDigits(s: string): (n: nat)
    ensures n <= |s|
    ensures forall i :: |s| - n <= i < |s| ==> IsDigit(s[i])
    ensures n < |s| ==> !IsDigit(s[|s| - n - 1])
    decreases |s|
  {
    if s != [] && IsDigit(s[|s| - 1]) then TrailingDigits(s[..|s| - 1]) + 1 else 0
  }

  /** A digit run appended to text that does not end in a digit is the whole trailing run. */
  lemma {:induction false} TrailingDigitsAppend(a: string, b: string)
    requires AllDigits(b)
    requires a == [] || !IsDigit(a[|a| - 1])
    ensures TrailingDigits(a + b) == |b|
    decreases |b|
  {
    if b == [] {
      assert a + b == a;
    } else {
      var b' := b[..|b| - 1];
      assert (a + b)[..|a + b| - 1] == a + b';
      TrailingDigitsAppend(a, b');
    }
  }

  /** `$` matches at the very end or before one final newline. */
  function DropFinalNewline(path: string): (p: string)
    ensures p == path || p + "\n" == path
  {
    if EndsWith(path, "\n") then path[..|path| - 1] else path
  }

  /** `re.search(r"(\d{4})-(\d+)\.json$", path)`: the year and the id, when the
      path ends (up to one newline) in four digits, a dash, one or more digits
      and ".json". The id is the whole final run of digits; the year is the four
      characters before the dash. */
  function ParseVideoFileName(path: string): Option<(string, string)> {
    var p := DropFinalNewline(path);
    if !EndsWith(p, ".json") then None
    else
      var u := p[..|p| - 5];
      var n := TrailingDigits(u);
      if n == 0 || |u| < n + 5 || u[|u| - n - 1] != '-' || !AllDigits(u[|u| - n - 5..|u| - n - 1]) then None
      else Some((u[|u| - n - 5..|u| - n - 1], u[|u| - n..]))
  }

  /** A path that parses ends in `year-id.json` (up to one newline), with a
      four-digit year and an all-digit id. */
  lemma ParseVideoFileNameSound(path: string)
    requires ParseVideoFileName(path).Some?
    ensures var (year, id) := ParseVideoFileName(path).value;
            && |year| == 4 && AllDigits(year) && id != [] && AllDigits(id)
            && EndsWith(DropFinalNewline(path), year + "-" + id + ".json")
  {
    var p := DropFinalNewline(path);
    var u := p[..|p| - 5];
    var n := TrailingDigits(u);
    var year := u[|u| - n - 5..|u| - n - 1];
    var id := u[|u| - n..];
    var tail := year + "-" + id + ".json";
    assert p[|p| - 5..] == ".json";
    assert u[|u| - n - 5..] == year + "-" + id;
    assert p[|p| - |tail|..] == tail;
  }

  /** A path ending in ".json" keeps it after `$` drops at most one newline. */
  lemma DropNewlineAfterJson(p: string, nl: string)
    requires EndsWith(p, ".json") && (nl == "" || nl == "\n")
    ensures DropFinalNewline(p + nl) == p
  {
    if nl == "" {
      assert p + nl == p;
      assert (p + nl)[|p + nl| - 1] == 'n';
    } else {
      assert (p + nl)[..|p + nl| - 1] == p;
    }
  }

  /** The stem `dir + year + "-" + id` splits back into its year and its id. */
  lemma StemSplits(dir: string, year: string, id: string)
    requires |year| == 4 && id != [] && AllDigits(id)
    ensures var u := dir + year + "-" + id;
            && TrailingDigits(u) == |id| && |u| >= |id| + 5
            && u[|u| - |id| - 1] == '-'
            && u[|u| - |id| - 5..|u| - |id| - 1] == year
            && u[|u| - |id|..] == id
  {
    var u := dir + year + "-" + id;
    TrailingDigitsAppend(dir + year + "-", id);
    assert u[|u| - |id| - 1] == '-';
    assert u[|u| - |id| - 5..|u| - |id| - 1] == year;
    assert u[|u| - |id|..] == id;
  }

  /** Every path ending in a four-digit year, a dash, an all-digit id and
      ".json" (then at most one newline) parses to that year and id, whatever
      directory precedes it. */
  lemma ParseVideoFileNameComplete(dir: string, year: string, id: string, nl: string)
    requires |year| == 4 && AllDigits(year) && id != [] && AllDigits(id)
    requires nl == "" || nl == "\n"
    ensures ParseVideoFileName(dir + year + "-" + id + ".json" + nl) == Some((year, id))
  {
    var u := dir + year + "-" + id;
    var p := u + ".json";
    assert p[|p| - 5..] == ".json";
    assert p[..|p| - 5] == u;
    DropNewlineAfterJson(p, nl);
    StemSplits(dir, year, id);
  }

  /** The record `load_video_data` yields for one path, or nothing when the
      path does not match or the record cannot be loaded. Only the year and
      the id of the path are used: the record is read from
      `videos/{year}-{id}.json`. */
  function LoadedOne(c: Corpus, path: string): seq<Video> {
    match ParseVideoFileName(path)
    case None => []
    case Some((year, id)) =>
      match VideoSpec(c, year, id)
      case Success(v) => [v]
      case Failure(_) => []
  }

  /** What `load_videos_data` returns: the loaded records, in path order, with
      failed loads dropped. */
  function LoadedVideos(c: Corpus, files: seq<string>): seq<Video>
    decreases |files|
  {
    if files == [] then []
    else LoadedVideos(c, files[..|files| - 1]) + LoadedOne(c, files[|files| - 1])
  }

  /** No more records than paths, and each record is the one stored under the
      canonical path of a year and id parsed from one of the paths. */
  lemma {:induction false} LoadedVideosSound(c: Corpus, files: seq<string>)
    ensures |LoadedVideos(c, files)| <= |files|
    ensures forall v :: v in LoadedVideos(c, files) ==>
              exists f :: f in files && ParseVideoFileName(f).Some?
                          && VideoSpec(c, ParseVideoFileName(f).value.0, ParseVideoFileName(f).value.1) == Success(v)
    decreases |files|
  {
    if files != [] {
      var init := files[..|files| - 1];
      var last := files[|files| - 1];
      LoadedVideosSound(c, init);
      forall v | v in LoadedVideos(c, files)
        ensures exists f :: f in files && ParseVideoFileName(f).Some?
                            && VideoSpec(c, ParseVideoFileName(f).value.0, ParseVideoFileName(f).value.1) == Success(v)
      {
        if v in LoadedVideos(c, init) {
          var f :| f in init && ParseVideoFileName(f).Some?
                   && VideoSpec(c, ParseVideoFileName(f).value.0, ParseVideoFileName(f).value.1) == Success(v);
          assert f in files;
        } else {
          assert v in LoadedOne(c, last);
          assert last in files;
        }
      }
    }
  }

  /** A canonical detail path loads the record stored under it, when there is one. */
  lemma LoadedOneCanonical(c: Corpus, year: string, id: string)
    requires |year| == 4 && AllDigits(year) && id != [] && AllDigits(id)
    ensures var path := VideoPath(VideoKey(year, id));
            LoadedOne(c, path) == if path in c.videos then [c.videos[path]] else []
  {
    var path := VideoPath(VideoKey(year, id));
    assert path == "videos/" + year + "-" + id + ".json" + "";
    ParseVideoFileNameComplete("videos/", year, id, "");
  }

  /** The detail record's path: `dataFile` when the summary has one, else the
      canonical `videos/{year}-{id}.json`. */
  function DetailPath(v: Video): string {
    match v.dataFile
    case Some(f) => f
    case None => "videos/" + v.year + "-" + v.id + ".json"
  }

  function DetailPaths(vs: seq<Video>): (files: seq<string>)
    ensures |files| == |vs|
  {
    seq(|vs|, i requires 0 <= i < |vs| => DetailPath(vs[i]))
  }

  /** Without `dataFile`, a summary with a four-digit year and an all-digit id
      loads the record the data source keeps for that year and id. */
  lemma DetailPathLoads(c: Corpus, v: Video)
    requires v.dataFile.None?
    requires |v.year| == 4 && AllDigits(v.year) && v.id != [] && AllDigits(v.id)
    ensures var path := VideoPath(VideoKey(v.year, v.id));
            LoadedOne(c, DetailPath(v)) == if path in c.videos then [c.videos[path]] else []
  {
    assert DetailPath(v) == VideoPath(VideoKey(v.year, v.id));
    LoadedOneCanonical(c, v.year, v.id);
  }

  /** The loop that names the detail file of each candidate. */
  method CollectPaths(candidates: seq<Video>) returns (files: seq<string>)
    ensures files == DetailPaths(candidates)
  {
    files := [];
    var i := 0;
    while i < |candidates|
      invariant 0 <= i <= |candidates|
      invariant files == DetailPaths(candidates[..i])
    {
      var v := candidates[i];
      if v.dataFile.Some? {
        files := files + [v.dataFile.value];
      } else {
        files := files + ["videos/" + v.year + "-" + v.id + ".json"];
      }
      i := i + 1;
    }
    assert candidates[..i] == candidates;
  }

  lemma LoadedVideosStep(c: Corpus, files: seq<string>, i: nat)
    requires i < |files|
    ensures LoadedVideos(c, files[..i + 1]) == LoadedVideos(c, files[..i]) + LoadedOne(c, files[i])
  {
    assert files[..i + 1][..i] == files[..i];
  }

  /** The body of the `load_videos_data` loop for one path: parse it and, when
      it matches, load the record of its year and id. */
  method LoadFromPath(ds: DataSource, path: string) returns (found: seq<Video>)
    requires ds.Valid()
    modifies ds`videoDataCache
    ensures ds.Valid()
    ensures found == LoadedOne(ds.corpus, path)
  {
    found := [];
    match ParseVideoFileName(path) {
      case Some((year, id)) =>
        var r := ds.LoadVideoData(year, id);
        if r.Success? {
          found := [r.value];
        }
      case None =>
    }
  }

  /** `load_videos_data`: load each path whose name matches, keeping the
      records that load, in path order. The loads run one after the other. */
  method LoadVideosData(ds: DataSource, files: seq<string>) returns (videos: seq<Video>)
    requires ds.Valid()
    modifies ds`videoDataCache
    ensures ds.Valid()
    ensures videos == LoadedVideos(ds.corpus, files)
  {
    videos := [];
    var i := 0;
    while i < |files|
      invariant 0 <= i <= |files|
      invariant ds.Valid()
      invariant videos == LoadedVideos(ds.corpus, files[..i])
    {
      LoadedVideosStep(ds.corpus, files, i);
      var found := LoadFromPath(ds, files[i]);
      videos := videos + found;
      i := i + 1;
    }
    assert files[..i] == files;
  }
}
