/** The WWDC archive records. Fields the records declare as nullable are `Option`s
    (`None` is JSON `null`); list fields that may be `null` are `Option<seq<…>>`. */
module WwdcTypes {
  import opened Wrappers

  datatype TranscriptSegment = TranscriptSegment(timestamp: string, text: string)

  datatype TranscriptData = TranscriptData(fullText: string, segments: seq<TranscriptSegment>)

  datatype CodeExample = CodeExample(
    timestamp: Option<string>,
    title: Option<string>,
    language: string,
    code: string,
    context: Option<string>)

  datatype ResourceLink = ResourceLink(title: string, url: string)

  datatype VideoResources = VideoResources(
    hdVideo: Option<string>,
    sdVideo: Option<string>,
    sampleProject: Option<string>,
    slides: Option<string>,
    resourceLinks: Option<seq<ResourceLink>>)

  datatype RelatedVideo = RelatedVideo(id: string, year: string, title: string, url: string)

  datatype Chapter = Chapter(title: string, timestamp: string, duration: Option<string>)

  /** A video record. Summary records of the video list also carry `dataFile`,
      the path of the detail record. */
  datatype Video = Video(
    id: string,
    year: string,
    url: string,
    title: string,
    speakers: Option<seq<string>>,
    duration: string,
    topics: seq<string>,
    hasTranscript: bool,
    hasCode: bool,
    transcript: Option<TranscriptData>,
    codeExamples: Option<seq<CodeExample>>,
    chapters: Option<seq<Chapter>>,
    resources: VideoResources,
    relatedVideos: Option<seq<RelatedVideo>>,
    extractedAt: Option<string>,
    dataFile: Option<string>)

  datatype TopicInfo = TopicInfo(id: string, name: string, url: string)

  datatype Statistics = Statistics(
    byTopic: map<string, int>,
    byYear: map<string, int>,
    videosWithCode: int,
    videosWithTranscript: int,
    videosWithResources: int)

  datatype GlobalMetadata = GlobalMetadata(
    version: string,
    lastUpdated: string,
    topics: seq<TopicInfo>,
    years: seq<string>,
    statistics: Statistics)

  /** The bundled data files, already parsed. A missing entry is a file that
      cannot be read or parsed.
      - `metadata`: `index.json`; `Some(None)` is a file that parses to `{}`.
      - `videoList`: the `videos` list of `all-videos.json` (`[]` when the key is absent).
      - `videos`: the detail records, by path such as `videos/2024-10015.json`. */
  datatype Corpus = Corpus(
    metadata: Option<Option<GlobalMetadata>>,
    videoList: Option<seq<Video>>,
    videos: map<string, Video>)
}
