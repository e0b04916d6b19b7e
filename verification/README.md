# Apple developer documentation tools, sequential thinking and memory bank: a Dafny model

This project models the core logic of three Model Context Protocol servers
that live side by side in one repository:

- **apple-docs** — tools over Apple's developer documentation and the bundled
  WWDC session archive. The WWDC data source loads the archive index and the
  per-session detail files through insertion-ordered caches of bounded size,
  sorts and indexes sessions by year and topic; the WWDC tools list, search
  (titles, transcripts, code), extract code examples grouped by language,
  and browse topics. The documentation tools convert developer.apple.com
  URLs to their JSON endpoints, shape the documentation JSON (abstract,
  declaration, topics, availability, related and similar APIs), render it
  through the formatter, browse frameworks and technologies, and search;
  the HTTP client caches responses and retries with exponential back-off.
- **sequential-thinking** — a server that records numbered thoughts, their
  revisions and branches, and answers with the state of the history.
- **vertex-memory-bank** — the validators and formatters of memory tool
  input and output, the configuration, the discovery of an agent engine's
  name in SDK results, the client manager's lifecycle and the shared
  application state.

Pure code (formatters, matchers, parsers, validators) is modelled as
datatypes, functions and lemmas. Code that works by updating state — the
caches, the sequential-thinking history, the client manager, the application
state, the loops that group, collect and count — is modelled by classes with
`modifies` frames and by methods with loop invariants, each proved against a
specification function. Python values whose type is only known at run time
are a `PyValue` datatype; Python's insertion-ordered `dict` is
`OrderedDict.Dict`; network fetches, file reads and SDK calls are function
parameters.

## Model

| member | source | states |
|---|---|---|
| OrderedDict.Get | apple-docs/src/apple_docs/utils/wwdc_data_source.py:155-156 | a cache lookup finds a value exactly when the key is present, and it is the stored value |
| OrderedDict.Set | apple-docs/src/apple_docs/utils/wwdc_data_source.py:162 | storing a key maps it to the new value; a new key goes last in insertion order and an existing key keeps its place |
| OrderedDict.PopFirst | apple-docs/src/apple_docs/utils/wwdc_data_source.py:53 | popping the first key of the iteration order removes exactly that entry and keeps every other entry and the order of the rest |
| OrderedDict.PruneOldest | apple-docs/src/apple_docs/utils/wwdc_data_source.py:49-53 | at or above the cap the oldest entry is dropped and only it; below the cap the dictionary is unchanged |
| OrderedDict.PruneThenInsertBounded | apple-docs/src/apple_docs/utils/wwdc_data_source.py:161-162 | pruning before inserting keeps a cache at or below its cap, and the inserted key then holds the inserted value |
| OrderedDict.GroupBy | apple-docs/src/apple_docs/tools/search.py:163-168 | grouping by key yields the keys in first-appearance order, each bucket being exactly the elements with that key in their original order, and no bucket for an absent key |
| OrderedDict.SortedKeysCorrect | apple-docs/src/apple_docs/tools/search.py:170 | the sorted group keys are ordered, distinct, each with members, and include the key of every element |
| OrderedDict.UpdateCorrect | vertex-memory-bank/src/vertex_memory_bank/formatters.py:61 | `dict.update`: the other dictionary wins on shared keys, every other key keeps its value, and the existing keys keep their order at the front |
| PySeq.Prefix | apple-docs/src/apple_docs/tools/wwdc.py:77 | a slice `s[:n]` is a prefix of `s` of length `min(n, len(s))`, and for a negative `n` one that drops `-n` elements from the end |
| PySeq.FilterMembers | apple-docs/src/apple_docs/tools/wwdc.py:74-75 | a comprehension filter keeps an element exactly when it is in the input and passes the test |
| PySeq.FilterIsSubseq | apple-docs/src/apple_docs/tools/wwdc.py:74-75 | a filter keeps the input order of what it keeps |
| WwdcDataSource.VideoPathInjective | apple-docs/src/apple_docs/utils/wwdc_data_source.py:154-159 | distinct `year-id` cache keys name distinct detail files, so a cached record is the one its key's file holds |
| WwdcDataSource.SortedVideoListCorrect | apple-docs/src/apple_docs/utils/wwdc_data_source.py:187-190 | the sorted list has non-increasing years, is a permutation of the archive list, and keeps the archive order among videos of one year (a stable sort) |
| WwdcDataSource.YearIndexBucket | apple-docs/src/apple_docs/utils/wwdc_data_source.py:193-200 | the by-year bucket of a year is exactly the videos of that year in list order; a bucket exists exactly for the years that occur |
| WwdcDataSource.TopicIndexBucket | apple-docs/src/apple_docs/utils/wwdc_data_source.py:196-205 | the bucket the index pass builds for a topic is exactly `TopicBucket`: the videos in list order, each once per entry of that topic in its `topics`; a bucket exists exactly for the topics some video lists |
| WwdcDataSource.TopicBucketMembers | apple-docs/src/apple_docs/utils/wwdc_data_source.py:202-205 | a video is in a topic's bucket exactly when it is in the list and lists that topic |
| WwdcDataSource.TopicBucketIsFilter | apple-docs/src/apple_docs/utils/wwdc_data_source.py:202-205 | when no video lists the topic twice, the bucket is the list filtered by that topic, in list order |
| WwdcDataSource.TopicBucketRepeats | apple-docs/src/apple_docs/utils/wwdc_data_source.py:202-205 | a video whose topics name the topic twice appears twice in the bucket, as the loop appends it once per entry |
| WwdcDataSource.TopicsMapLastWins | apple-docs/src/apple_docs/utils/wwdc_data_source.py:75-76 | the id-to-topic map holds an id exactly when some topic has it, and maps it to the last topic with that id |
| WwdcDataSource.DataSource.constructor | apple-docs/src/apple_docs/utils/wwdc_data_source.py:15-24 | the caches start empty and the data source satisfies its coherence invariant |
| WwdcDataSource.DataSource.PruneCache | apple-docs/src/apple_docs/utils/wwdc_data_source.py:49-53 | at 200 entries the first-inserted entry is evicted, otherwise nothing changes; afterwards the cache has fewer than 200 entries |
| WwdcDataSource.DataSource.LoadGlobalMetadata | apple-docs/src/apple_docs/utils/wwdc_data_source.py:56-81 | the result is the archive's metadata or its load error; a truthy cache is kept, a truthy result is cached with its topics map |
| WwdcDataSource.DataSource.GetTopicById | apple-docs/src/apple_docs/utils/wwdc_data_source.py:84-95 | the topic with that id from the topics map, `None` for an unknown id, or the metadata load error |
| WwdcDataSource.DataSource.LoadVideoData | apple-docs/src/apple_docs/utils/wwdc_data_source.py:140-166 | the record stored for `year-id` or the not-found error; a hit leaves the cache unchanged, a failed read leaves it unchanged, a successful miss prunes and then caches the record, keeping at most 200 entries |
| WwdcDataSource.DataSource.AddToTopics | apple-docs/src/apple_docs/utils/wwdc_data_source.py:202-205 | the video is appended to the bucket of each topic it lists, in order |
| WwdcDataSource.DataSource.RebuildIndices | apple-docs/src/apple_docs/utils/wwdc_data_source.py:192-205 | after the pass the two indices are the by-year and by-topic groupings of the list, and no other cache changes |
| WwdcDataSource.DataSource.LoadAllVideos | apple-docs/src/apple_docs/utils/wwdc_data_source.py:169-210 | the result is the archive list sorted newest year first, or the load error; a non-empty cache is reused; the indices always agree with the cached list |
| WwdcDataSource.DataSource.GetVideosByYear | apple-docs/src/apple_docs/utils/wwdc_data_source.py:213-216 | the listed videos of that year in list order, `[]` when none, or the load error |
| WwdcDataSource.DataSource.GetVideosByTopic | apple-docs/src/apple_docs/utils/wwdc_data_source.py:219-222 | the topic's bucket of the sorted list (`TopicBucket`: list order, one copy per `topics` entry), `[]` for an unknown topic, or the load error |
| WwdcFiles.TrailingDigits | apple-docs/src/apple_docs/tools/wwdc.py:27 | the length of the digit run that ends the text: every counted character is a digit and the one before it is not |
| WwdcFiles.ParseVideoFileNameSound | apple-docs/src/apple_docs/tools/wwdc.py:27-29 | a path that matches the file-name pattern ends in `year-id.json` (then at most one newline) with a four-digit year and an all-digit id |
| WwdcFiles.ParseVideoFileNameComplete | apple-docs/src/apple_docs/tools/wwdc.py:27-29 | every path ending in a four-digit year, a dash, an all-digit id and `.json` (then at most one newline) matches, giving that year and id, whatever directory precedes it |
| WwdcFiles.LoadedVideosSound | apple-docs/src/apple_docs/tools/wwdc.py:14-37 | no more records than paths, and each record is the one stored under the canonical detail path of a year and id parsed from one of the paths |
| WwdcFiles.LoadedOneCanonical | apple-docs/src/apple_docs/tools/wwdc.py:27-31 | a canonical detail path loads the record stored for its year and id, when there is one |
| WwdcFiles.DetailPathLoads | apple-docs/src/apple_docs/tools/wwdc.py:140-145 | a summary without `dataFile` names the detail path that loads the record the data source keeps for its year and id |
| WwdcFiles.CollectPaths | apple-docs/src/apple_docs/tools/wwdc.py:140-145 | the loop yields one detail path per candidate, in order: `dataFile` when present, else the path built from year and id |
| WwdcFiles.LoadFromPath | apple-docs/src/apple_docs/tools/wwdc.py:26-31 | one loop step loads exactly the record its path names, keeping the data source coherent |
| WwdcFiles.LoadVideosData | apple-docs/src/apple_docs/tools/wwdc.py:14-37 | the records of the matching paths that load, in path order; the data source stays coherent |
| WwdcList.ListedVideosIsOneFilter | apple-docs/src/apple_docs/tools/wwdc.py:62-77 | the three filters in a row keep the same videos as one filter by all three criteria, cut to `limit` |
| WwdcList.ListedVideosSound | apple-docs/src/apple_docs/tools/wwdc.py:62-77 | the listing keeps list order, holds at most `limit` videos, and every listed video meets the year, topic and has-code filters |
| WwdcList.VideoListOfSound | apple-docs/src/apple_docs/tools/wwdc.py:437-500 | an empty input gives the no-videos text; otherwise the report counts the whole input and its year groups, newest first, hold exactly the input videos of their year |
| WwdcList.ListSpecSound | apple-docs/src/apple_docs/tools/wwdc.py:40-86 | a listing report counts between one and `limit` videos, newest year first, all from the summary list and meeting the filters |
| WwdcList.FormatVideoList | apple-docs/src/apple_docs/tools/wwdc.py:437-500 | the loop-built report equals the report specification, including the `int(year)` failure |
| WwdcList.ListWwdcVideos | apple-docs/src/apple_docs/tools/wwdc.py:40-86 | the tool's output is the listing specification of the archive, or the error text of a failed load |
| WwdcReport.FirstNonInt | apple-docs/src/apple_docs/tools/wwdc.py:475 | the first year key `int()` rejects, or none when every key is an integer |
| WwdcReport.IntError | apple-docs/src/apple_docs/tools/wwdc.py:475 | the `ValueError` text of `int()`: the fixed prefix followed by the year's `repr` cut to 200 characters |
| WwdcReport.IntErrorPlain | apple-docs/src/apple_docs/tools/wwdc.py:475 | a year of at most 198 plain characters appears between single quotes, unchanged |
| WwdcReport.IntErrorSingleQuote | apple-docs/src/apple_docs/tools/wwdc.py:475 | a year holding a single quote and no double quote is shown between double quotes |
| WwdcReport.IntErrorNewline | apple-docs/src/apple_docs/tools/wwdc.py:475 | a newline in the year is shown as the escape `\n` |
| PyRepr.Repr | apple-docs/src/apple_docs/tools/wwdc.py:475 | `repr` of a string opens and closes with the same quote: double exactly when the string holds a single quote and no double quote |
| PyRepr.ReprCut | apple-docs/src/apple_docs/tools/wwdc.py:475 | the cut `repr` is a prefix of the full one, at most the width long, and the whole `repr` when that fits |
| PyRepr.ReprPlain | apple-docs/src/apple_docs/tools/wwdc.py:475 | a string without backslashes, single quotes or unprintable characters is shown between single quotes unchanged |
| PyRepr.ReprDoubleQuoted | apple-docs/src/apple_docs/tools/wwdc.py:475 | a string with a single quote, no double quote and nothing else to escape is shown between double quotes unchanged |
| PyRepr.ReprNewlineBetween | apple-docs/src/apple_docs/tools/wwdc.py:475 | a newline between two runs of plain characters is shown as `\n` between single quotes |
| PyRepr.EscapeBodyLength | apple-docs/src/apple_docs/tools/wwdc.py:475 | escaping never shortens the text, and keeps its length exactly when no character is escaped |
| WwdcReport.YearGroupsCorrect | apple-docs/src/apple_docs/tools/wwdc.py:467-478 | groups come newest first, one per distinct year; each holds exactly the videos of its year in list order and is non-empty; every video is in its year's group |
| WwdcReport.YearGroupsFail | apple-docs/src/apple_docs/tools/wwdc.py:475 | the grouping fails exactly when some video's year is not an integer |
| WwdcReport.FirstNonIntKey | apple-docs/src/apple_docs/tools/wwdc.py:475 | the loop finds the first key that `int()` rejects, as `sorted(..., key=int)` would raise on |
| WwdcReport.CollectGroups | apple-docs/src/apple_docs/tools/wwdc.py:475-478 | the output loop reads one bucket per sorted year, each the videos of that year in order |
| WwdcReport.GroupVideosByYear | apple-docs/src/apple_docs/tools/wwdc.py:467-478 | the dict-and-sort grouping equals the grouping specification |
| WwdcMatching.AnyContainsIff | apple-docs/src/apple_docs/tools/wwdc.py:122 | some topic, lower-cased, contains the query exactly when one of the topics does |
| WwdcMatching.NonBlankStripped | apple-docs/src/apple_docs/tools/wwdc.py:400 | the stripped non-blank lines: never more than the input and none empty |
| WwdcMatching.MatchingLinesExact | apple-docs/src/apple_docs/tools/wwdc.py:397-398 | the matching line numbers are increasing and are exactly the lines that contain the query |
| WwdcMatching.ContextShowsLine | apple-docs/src/apple_docs/tools/wwdc.py:399-400 | a non-blank matching line appears, stripped, inside its own context |
| WwdcMatching.CollectContexts | apple-docs/src/apple_docs/tools/wwdc.py:397-402 | the loop collects one context per matching line, in line order |
| WwdcMatching.SearchInTranscript | apple-docs/src/apple_docs/tools/wwdc.py:383-403 | one context per matching line of the transcript, in line order |
| WwdcMatching.CodeMatchFor | apple-docs/src/apple_docs/tools/wwdc.py:420-433 | one loop pass gives the example's match specification: none when the language differs or the code lacks the query |
| WwdcMatching.SearchInCode | apple-docs/src/apple_docs/tools/wwdc.py:406-434 | at most one match per example, in example order |
| WwdcMatching.CodeMatchOfSound | apple-docs/src/apple_docs/tools/wwdc.py:421-432 | a code match passes the language filter, comes from code containing the query, is labelled `[language] title: ` and shows the first stripped line that contains the query |
| WwdcMatching.CodeMatchesSound | apple-docs/src/apple_docs/tools/wwdc.py:420-434 | every code match is the match of one of the examples, and there are no more matches than examples |
| WwdcSearch.VideoMatchesTranscriptFirst | apple-docs/src/apple_docs/tools/wwdc.py:154-168 | a video's transcript matches all come before its code matches |
| WwdcSearch.SearchResultsShape | apple-docs/src/apple_docs/tools/wwdc.py:149-174 | at most one entry per loaded video, each with between one and three matches |
| WwdcSearch.RankingStable | apple-docs/src/apple_docs/tools/wwdc.py:176 | sorting by match count, descending, keeps the order of entries with equally many matches |
| WwdcSearch.SearchSpecSound | apple-docs/src/apple_docs/tools/wwdc.py:89-182 | a report lists at most `limit` entries, more matches first; each is a loaded detail record of a candidate with its first one to three matches, transcript before code |
| WwdcSearch.AppendTranscriptMatches | apple-docs/src/apple_docs/tools/wwdc.py:155-158 | each transcript context becomes one transcript match, appended in order |
| WwdcSearch.AppendCodeMatches | apple-docs/src/apple_docs/tools/wwdc.py:166-168 | the code matches are appended unchanged, in order |
| WwdcSearch.CollectMatches | apple-docs/src/apple_docs/tools/wwdc.py:150-168 | the matches of one video as the search scope selects them |
| WwdcSearch.SelectCandidates | apple-docs/src/apple_docs/tools/wwdc.py:117-133 | the pre-filter keeps exactly the summaries of the requested year whose title or a topic contains the query, or that have code or a transcript the scope searches |
| WwdcSearch.CollectResults | apple-docs/src/apple_docs/tools/wwdc.py:149-174 | the loop builds one entry per video with matches, keeping its first three |
| WwdcSearch.SearchWwdcContent | apple-docs/src/apple_docs/tools/wwdc.py:89-182 | the tool's output is the search specification of the archive |
| WwdcCodeExamples.VideoRowsIff | apple-docs/src/apple_docs/tools/wwdc.py:267-282 | a row of a video is exactly an example of it whose language (case-insensitively) and code (containing the framework, case-insensitively) are wanted |
| WwdcCodeExamples.ExampleRowsIff | apple-docs/src/apple_docs/tools/wwdc.py:262-282 | the collected rows are exactly the wanted examples of the loaded videos |
| WwdcCodeExamples.LanguageGroupsCorrect | apple-docs/src/apple_docs/tools/wwdc.py:650-660 | one group per distinct language, in order of first appearance; each non-empty and holding exactly the rows of its language in order |
| WwdcCodeExamples.CodeExamplesSpecLoaded | apple-docs/src/apple_docs/tools/wwdc.py:232-285 | once the list loads: the no-examples text without candidates, else the report of the loaded candidates' rows cut to `limit` |
| WwdcCodeExamples.CodeExamplesSpecSound | apple-docs/src/apple_docs/tools/wwdc.py:205-288 | a report counts between one and `limit` examples; every row is a wanted example of a loaded candidate record and sits in its language's group |
| WwdcCodeExamples.CodeExamplesComplete | apple-docs/src/apple_docs/tools/wwdc.py:205-288 | below the limit nothing is lost: every wanted example of every loaded candidate shows up in its language's group |
| WwdcCodeExamples.SelectCodeCandidates | apple-docs/src/apple_docs/tools/wwdc.py:234-247 | the pre-filter keeps exactly the summaries of the year that have code and whose topics or title contain the topic, lower-cased |
| WwdcCodeExamples.CollectVideoRows | apple-docs/src/apple_docs/tools/wwdc.py:267-282 | the loop over one video's examples yields its rows in order |
| WwdcCodeExamples.CollectRows | apple-docs/src/apple_docs/tools/wwdc.py:262-282 | the loop over the loaded videos yields all their rows, a video without examples adding none |
| WwdcCodeExamples.CollectLanguageGroups | apple-docs/src/apple_docs/tools/wwdc.py:658-671 | the output loop yields one group per language key in insertion order |
| WwdcCodeExamples.FormatCodeExamples | apple-docs/src/apple_docs/tools/wwdc.py:618-672 | the report of `format_code_examples` equals its specification |
| WwdcCodeExamples.ReportExamples | apple-docs/src/apple_docs/tools/wwdc.py:262-285 | the loaded videos' rows, cut to `limit`, and their report |
| WwdcCodeExamples.ExamplesFromList | apple-docs/src/apple_docs/tools/wwdc.py:232-285 | after the list loads, the output is the code-examples specification of the archive |
| WwdcCodeExamples.GetWwdcCodeExamples | apple-docs/src/apple_docs/tools/wwdc.py:205-288 | the tool's output is the code-examples specification of the archive |
| WwdcTopics.FirstTopicWithIdCorrect | apple-docs/src/apple_docs/tools/wwdc.py:323 | the first topic with the id, or none exactly when no topic has it |
| WwdcTopics.FirstTopicAgreesWithMap | apple-docs/src/apple_docs/tools/wwdc.py:323 | with distinct topic ids, the first topic with an id is the one the data source's topics map holds |
| WwdcTopics.BrowseListSound | apple-docs/src/apple_docs/tools/wwdc.py:309-321 | without a topic id the report lists every topic, in order, with its video count exactly when that is non-zero |
| WwdcTopics.BrowseDetailSound | apple-docs/src/apple_docs/tools/wwdc.py:323-330 | a topic page shows the first topic with the id; an unknown id gets the not-found text naming every id |
| WwdcTopics.TopicVideosSound | apple-docs/src/apple_docs/tools/wwdc.py:331-375 | a topic page shows at most `limit` videos, all from the list, each naming the topic and of the year; the groups come newest first |
| WwdcTopics.ListTopics | apple-docs/src/apple_docs/tools/wwdc.py:313-320 | the loop writes one entry per topic, in order |
| WwdcTopics.FindTopic | apple-docs/src/apple_docs/tools/wwdc.py:323 | the scan returns the first topic with the id |
| WwdcTopics.SelectTopicVideos | apple-docs/src/apple_docs/tools/wwdc.py:337-342 | the loop keeps exactly the videos of the year (any year for \`all\`) that list the topic's name |
| WwdcTopics.LoadTopicVideos | apple-docs/src/apple_docs/tools/wwdc.py:331-375 | the videos part of a topic page equals its specification, a failure reported in the page |
| WwdcTopics.BrowseWwdcTopics | apple-docs/src/apple_docs/tools/wwdc.py:291-380 | the tool's output is the browse specification of the archive |
| UrlConverter.DocumentationPath | apple-docs/src/apple_docs/utils/url_converter.py:24-28 | the path with one leading `/documentation/` removed, else one leading `/` removed, else unchanged |
| UrlConverter.ConvertToJsonApiUrl | apple-docs/src/apple_docs/utils/url_converter.py:4-32 | no URL exactly when the host is not `developer.apple.com`; a converted URL always ends in `.json` |
| UrlConverter.ConvertDocumentationPage | apple-docs/src/apple_docs/utils/url_converter.py:18-32 | a documentation page URL maps to the JSON file of the same path under the JSON API base; a URL already ending in `.json` is returned as it is |
| UrlConverter.ConvertIdempotent | apple-docs/src/apple_docs/utils/url_converter.py:18-19 | converting a converted URL again changes nothing |
| UrlConverter.SplitAllEmpty | apple-docs/src/apple_docs/utils/url_converter.py:65-67 | splitting on `/` yields only empty pieces exactly when the path is made of slashes |
| UrlConverter.SplitLastPiece | apple-docs/src/apple_docs/utils/url_converter.py:65 | the text after the last separator is the last piece of the split |
| UrlConverter.ExtractApiNameNone | apple-docs/src/apple_docs/utils/url_converter.py:62-70 | no API name exactly when the path consists of slashes only |
| UrlConverter.ExtractApiNameLast | apple-docs/src/apple_docs/utils/url_converter.py:65-72 | a path ending in a non-empty segment yields that segment with every `.json` removed |
| DocJson.Texts | apple-docs/src/apple_docs/utils/formatter.py:201-203 | the texts of the items, one per item, a missing text being empty |
| DocJson.LookupFinds | apple-docs/src/apple_docs/utils/formatter.py:187 | a reference lookup finds a value exactly when some entry has the identifier, and it is the first such entry's |
| DocJson.Linked | apple-docs/src/apple_docs/utils/formatter.py:187-189 | a linked reference is the one the identifier names, and only when it is not empty |
| DocJson.SiteUrl | apple-docs/src/apple_docs/utils/formatter.py:193-195 | a site-relative URL gets the developer site in front, any other comes back unchanged; the result never starts with `/` and ends with the input |
| DocJson.SiteUrlIdempotent | apple-docs/src/apple_docs/tools/fetcher.py:153-154 | making a URL absolute twice changes nothing more |
| Fetcher.SectionLinks | apple-docs/src/apple_docs/tools/fetcher.py:149-158 | at most one link per identifier, skipping identifiers without a non-empty reference |
| Fetcher.SectionsLinksBound | apple-docs/src/apple_docs/tools/fetcher.py:147-149 | each section gives at most three links |
| Fetcher.SectionsLinksFrom | apple-docs/src/apple_docs/tools/fetcher.py:147-158 | a link of a run of sections comes exactly from one of the first three identifiers of one section, which names a non-empty reference, captioned by that section |
| Fetcher.SectionsLinksShape | apple-docs/src/apple_docs/tools/fetcher.py:153-158 | every caption of a run of sections starts with its prefix and no URL is left site-relative |
| Fetcher.RelatedApisCorrect | apple-docs/src/apple_docs/tools/fetcher.py:133-177 | at most ten related APIs; relationship links first, everything after them a see-also link with its prefix; no URL is site-relative |
| Fetcher.SimilarApisCorrect | apple-docs/src/apple_docs/tools/fetcher.py:213-241 | at most eight similar APIs, each from one of the first three identifiers of a topic section, labelled with that section's title |
| Fetcher.AppendSectionLinks | apple-docs/src/apple_docs/tools/fetcher.py:149-158 | the inner loop appends the links of the first three identifiers to what was collected |
| Fetcher.AppendSectionsLinks | apple-docs/src/apple_docs/tools/fetcher.py:146-158 | the outer loop appends each section's links in section order |
| Fetcher.ExtractRelatedApis | apple-docs/src/apple_docs/tools/fetcher.py:133-177 | the loops compute the related-APIs specification |
| Fetcher.ExtractSimilarApis | apple-docs/src/apple_docs/tools/fetcher.py:213-241 | the loops compute the similar-APIs specification |
| Fetcher.RefSummary | apple-docs/src/apple_docs/tools/fetcher.py:199-201 | the abstract texts joined by spaces and stripped, so neither end is whitespace; empty without an abstract |
| Fetcher.ReferencesCorrect | apple-docs/src/apple_docs/tools/fetcher.py:180-210 | one reference per entry, the first fifteen, in document order; the type is the role, else the kind, else `unknown`; the URL is absolute |
| Fetcher.ExtractReferences | apple-docs/src/apple_docs/tools/fetcher.py:180-210 | the loop computes the references specification |
| Fetcher.NamesWhere | apple-docs/src/apple_docs/tools/fetcher.py:259-260 | exactly the names of the platforms with the flag and a non-empty name, in order |
| Fetcher.AnalyzePlatformCompatibility | apple-docs/src/apple_docs/tools/fetcher.py:244-268 | nothing exactly when there are no platforms; otherwise the platforms as given, the flagged beta and deprecated names, and cross-platform exactly when there is more than one |
| Fetcher.SinglePlatform | apple-docs/src/apple_docs/tools/fetcher.py:258-266 | a single platform is supported under its own name and is not cross-platform |
| Fetcher.FetchAppleDocJson | apple-docs/src/apple_docs/tools/fetcher.py:9-70 | the requests made number at most the depth plus one |
| Fetcher.ReferenceJsonUrlAccepted | apple-docs/src/apple_docs/tools/fetcher.py:52-58 | a followed reference URL is on the developer site and is a JSON URL under the documentation base |
| Fetcher.FetchFirstRequest | apple-docs/src/apple_docs/tools/fetcher.py:37-43 | a JSON URL on the site is requested first, as it is |
| Fetcher.FetchOffSite | apple-docs/src/apple_docs/tools/fetcher.py:34-35 | a URL off the site is rejected with the invalid-URL error and no request |
| Fetcher.FetchStops | apple-docs/src/apple_docs/tools/fetcher.py:46-51 | without a reference to follow there is at most one request |
| Fetcher.FetchFollows | apple-docs/src/apple_docs/tools/fetcher.py:46-66 | following a reference: the page's own request, then those of the followed reference's JSON URL with one less depth |
| Fetcher.FetchRequests | apple-docs/src/apple_docs/tools/fetcher.py:9-70 | every request after the first is the JSON URL of a followed reference, and an off-site URL makes no request |
| Formatter.HeaderTitle | apple-docs/src/apple_docs/utils/formatter.py:14-19 | the header opens with the line `# ` and the title, `Untitled` when missing; for a one-line title that is its whole first line |
| Formatter.HeaderEnd | apple-docs/src/apple_docs/utils/formatter.py:16-24 | the header ends with a blank line; a non-empty role closes it in parentheses, a missing role shows as `article`, and an empty role shows nothing |
| Formatter.AbstractRoundTrip | apple-docs/src/apple_docs/utils/formatter.py:39-44 | the abstract is empty exactly without abstract items, else ends with a blank line, and splitting its paragraph at spaces gives the texts back when no text holds a space |
| Formatter.SpecificApiDocumentRole | apple-docs/src/apple_docs/utils/formatter.py:57-59 | a page is a specific API exactly when its role is `symbol` or `collectionGroup`; its header then shows that role, and a page without a role is never one |
| Formatter.UnFenceFence | apple-docs/src/apple_docs/utils/formatter.py:114 | a fenced block reads back as its language and code when the language is one line |
| Formatter.DeclarationDefaultSwift | apple-docs/src/apple_docs/utils/formatter.py:106-114 | a declaration without languages shows one Swift block of its token texts concatenated |
| Formatter.DeclarationLanguages | apple-docs/src/apple_docs/utils/formatter.py:110-114 | each language gives one block, in order: the blocks of two language lists are those of the first then those of the second |
| Formatter.SpecificApiContentSections | apple-docs/src/apple_docs/utils/formatter.py:92-138 | the content of a page is the content of its sections in order, and a section of another kind adds nothing |
| Formatter.ParametersLines | apple-docs/src/apple_docs/utils/formatter.py:116-132 | a parameters section is its heading, one line per parameter and a blank line |
| Formatter.HeadingShape | apple-docs/src/apple_docs/utils/formatter.py:254-260 | a heading item renders as `level` hashes (default 2), a space, the text and a blank line |
| Formatter.ListLines | apple-docs/src/apple_docs/utils/formatter.py:262-282 | an unordered list renders one line per entry and a blank line |
| Formatter.CollectionLineIff | apple-docs/src/apple_docs/utils/formatter.py:183-207 | an identifier gives a line exactly when it names a non-empty reference, and the line links that reference's title and absolute URL |
| Formatter.AvailabilityShape | apple-docs/src/apple_docs/utils/formatter.py:315-347 | availability is empty exactly without platforms; otherwise a heading, one line per platform and a blank line |
| Formatter.FormatPlatformAvailability | apple-docs/src/apple_docs/utils/formatter.py:315-347 | the loop computes the availability specification |
| Formatter.SeeAlsoShape | apple-docs/src/apple_docs/utils/formatter.py:378-414 | the see-also section is empty exactly without see-also sections; otherwise it opens with its heading and ends with a newline |
| Formatter.SeeAlsoLineIff | apple-docs/src/apple_docs/utils/formatter.py:396-410 | a see-also link exists exactly for an identifier naming a non-empty reference |
| Formatter.SeeAlsoLinkOneLine | apple-docs/src/apple_docs/utils/formatter.py:410 | a see-also link is one line when its title and URL are |
| Formatter.LinkSectionShape | apple-docs/src/apple_docs/utils/formatter.py:445-457 | a related or similar APIs section is empty exactly without links; otherwise its heading, one line per link and a blank line |
| Formatter.FormatReferencesSection | apple-docs/src/apple_docs/utils/formatter.py:488-504 | the loop computes the references section specification |
| Formatter.ReferencesShape | apple-docs/src/apple_docs/utils/formatter.py:488-504 | the references section is empty exactly without references; otherwise headed `## References` and ending in a newline |
| Formatter.ReferencesSection | apple-docs/src/apple_docs/utils/formatter.py:488-490 | the references section of a page is empty exactly when the page has no references |
| Formatter.PlatformAnalysisShape | apple-docs/src/apple_docs/utils/formatter.py:578-592 | the analysis section opens with its heading and the supported platforms and closes with the cross-platform line |
| Formatter.PlatformAnalysisSection | apple-docs/src/apple_docs/utils/formatter.py:580-590 | for a page's analysis the section lists every platform name, and ends with the `Cross-Platform: Yes` line exactly when there is more than one platform |
| Frameworks.ParsedItems | apple-docs/src/apple_docs/tools/frameworks.py:146-171 | every parsed symbol is a non-group entry carrying the requested language |
| Frameworks.ParsedItemsAppend | apple-docs/src/apple_docs/tools/frameworks.py:157-171 | parsing a concatenation parses the parts one after the other |
| Frameworks.ParsedItemsFlat | apple-docs/src/apple_docs/tools/frameworks.py:162-170 | a list without group markers gives one symbol per entry, in order, with the defaults for missing fields |
| Frameworks.ParsedItemsEmptyGroup | apple-docs/src/apple_docs/tools/frameworks.py:159-161 | a group marker without children contributes nothing |
| Frameworks.ParseIndexItems | apple-docs/src/apple_docs/tools/frameworks.py:146-171 | the loop, recursing into each group marker's children, yields the pre-order flattening |
| Frameworks.MatchesCriteriaCases | apple-docs/src/apple_docs/tools/frameworks.py:174-207 | type `all` and no pattern keep every symbol; a literal pattern keeps exactly the titles that contain it, ignoring case |
| Frameworks.PluralizeType | apple-docs/src/apple_docs/tools/frameworks.py:210-224 | the plural always ends in `s`, and a name already ending in `s` is kept |
| Frameworks.PluralizeTypeProperties | apple-docs/src/apple_docs/tools/frameworks.py:220-224 | pluralising twice is pluralising once; a name ending in `y` (not `s`) takes `ies` in place of the `y` |
| Frameworks.SymbolListingSound | apple-docs/src/apple_docs/tools/frameworks.py:99-138 | the listing counts the matching symbols; with none it suggests at most five collections in index order; otherwise its groups come in strictly increasing type order and hold exactly the shown symbols (at most `limit`, all matching) of their type |
| Frameworks.TypeGroupsCorrect | apple-docs/src/apple_docs/tools/frameworks.py:126-133 | sorted distinct types, each group exactly the shown symbols of its type, non-empty, every symbol's type present |
| Frameworks.CacheKeyIgnoresCase | apple-docs/src/apple_docs/tools/frameworks.py:81 | frameworks differing only in letter case share a cache entry |
| Frameworks.FrameworkSymbolsCache.constructor | apple-docs/src/apple_docs/tools/frameworks.py:10 | the cache starts empty |
| Frameworks.FrameworkSymbolsCache.Prune | apple-docs/src/apple_docs/tools/frameworks.py:42-46 | at 50 entries the first-inserted entry is dropped, otherwise nothing changes; afterwards there are fewer than 50 |
| Frameworks.FrameworkSymbolsCache.SearchFrameworkSymbols | apple-docs/src/apple_docs/tools/frameworks.py:60-143 | a hit answers from the cache and leaves it unchanged; a failed fetch gives the error text and leaves it unchanged; a miss prunes, then stores the parsed symbols; the cache never exceeds 50 entries |
| Technologies.ParseTechnologies | apple-docs/src/apple_docs/tools/technologies.py:56-86 | at most one group per section, none of them empty |
| Technologies.ParseTechnologiesIsFilter | apple-docs/src/apple_docs/tools/technologies.py:66-86 | the parsed groups are the non-empty section groups, in order |
| Technologies.ParseTechnologiesSound | apple-docs/src/apple_docs/tools/technologies.py:66-86 | a group is parsed exactly when it belongs to a section with items; groups keep section order and every URL is on the developer site |
| Technologies.Target | apple-docs/src/apple_docs/tools/technologies.py:112-113 | a filter argument lower-cased, or none exactly when it is missing or empty |
| Technologies.TakeTechnologies | apple-docs/src/apple_docs/tools/technologies.py:119-136 | the inner loop counts what it keeps, keeps nothing once the limit is reached and never passes it |
| Technologies.FilterGroupsBound | apple-docs/src/apple_docs/tools/technologies.py:115-142 | the technologies kept from a running count add up to at most what the limit leaves |
| Technologies.TakeTechnologiesSound | apple-docs/src/apple_docs/tools/technologies.py:119-136 | what the inner loop keeps is an order-preserving selection of wanted technologies |
| Technologies.TakeTechnologiesUnbounded | apple-docs/src/apple_docs/tools/technologies.py:119-136 | below the limit the inner loop keeps exactly the wanted technologies |
| Technologies.FilterGroupsUnbounded | apple-docs/src/apple_docs/tools/technologies.py:115-142 | when everything wanted fits under the limit the count cuts nothing |
| Technologies.FilterGroupsOrdered | apple-docs/src/apple_docs/tools/technologies.py:115-142 | the kept groups' titles are a subsequence of the input groups' titles: the loop over groups keeps their order |
| Technologies.ApplyTechnologyFiltersCorrect | apple-docs/src/apple_docs/tools/technologies.py:89-144 | at most `limit` technologies (none for a limit at or below zero), every group non-empty and drawn from an input group of the same title inside the category, every technology passing the beta and language filters; the groups' titles in the input's order; with a large enough limit nothing wanted is left out |
| Technologies.ApplyTechnologyFiltersNoBeta | apple-docs/src/apple_docs/tools/technologies.py:124-125 | with beta excluded no technology tagged `beta` comes back |
| Technologies.TakeGroupTechnologies | apple-docs/src/apple_docs/tools/technologies.py:119-136 | the loop over one group computes the inner-loop specification |
| Technologies.ApplyTechnologyFilters | apple-docs/src/apple_docs/tools/technologies.py:109-144 | the loops, with one count across every group, compute the filter specification |
| Technologies.FormatTechnologies | apple-docs/src/apple_docs/tools/technologies.py:147-175 | the fixed no-technologies text exactly when there are no groups, else the report |
| Technologies.ListTechnologies | apple-docs/src/apple_docs/tools/technologies.py:26-53 | the tool's output is the listing specification of what the catalogue fetch returned |
| Technologies.ListTechnologiesSound | apple-docs/src/apple_docs/tools/technologies.py:26-53 | a listing counts at most `limit` technologies, each from a catalogue section with the site prefix on its URL; nothing left gives the fixed text |
| Search.AfterDocumentation | apple-docs/src/apple_docs/tools/search.py:131-134 | a URL containing `/documentation/` splits into more than one piece, and the second is the text up to the next `/documentation/` |
| Search.SegmentPiece | apple-docs/src/apple_docs/tools/search.py:134 | a segment without `/` followed by `/` or nothing is the first `/`-piece of what follows `/documentation/` |
| Search.UrlFramework | apple-docs/src/apple_docs/tools/search.py:111-137 | without breadcrumbs, a URL whose first `/documentation/` is followed by a segment and then `/` or nothing gives that segment capitalized |
| Search.ParseEntry | apple-docs/src/apple_docs/tools/search.py:72-108 | a parsed result always passes the type filter |
| Search.ParseEntryCorrect | apple-docs/src/apple_docs/tools/search.py:72-108 | an entry is read exactly when it has a non-empty link and its category passes the filter; its URL is the link made absolute, its category the entry's (default `Unknown`) followed by ` (Framework)` exactly when a non-empty framework is found, its description the entry's (default empty) |
| Search.ParsedEntriesPrefix | apple-docs/src/apple_docs/tools/search.py:61-67 | parsing a longer page only adds results at the end |
| Search.CollectResults | apple-docs/src/apple_docs/tools/search.py:57-67 | the loop stops reading once it holds `MAX_SEARCH_RESULTS` results and computes the capped parse of the page |
| Search.SearchResultsCorrect | apple-docs/src/apple_docs/tools/search.py:57-67 | at most `MAX_SEARCH_RESULTS` results, each passing the filter, in page order; a page with fewer parses keeps them all |
| Search.CategoryGroupsCorrect | apple-docs/src/apple_docs/tools/search.py:162-176 | categories come in strictly ascending order; each group holds exactly the results of its category in input order and is non-empty; every result is in its category's group |
| Search.GroupByCategory | apple-docs/src/apple_docs/tools/search.py:162-170 | the dict-building loop and the sorted key loop compute the category grouping |
| Search.FormatSearchResultsShape | apple-docs/src/apple_docs/tools/search.py:140-178 | the suggestion text stands exactly for an empty result list; otherwise the text opens with the query heading and the number of results |
| Search.SearchAppleDocsAll | apple-docs/src/apple_docs/tools/search.py:58 | with type `all` every entry with a non-empty link is kept |
| HttpClient.Verdict | apple-docs/src/apple_docs/utils/http_client.py:44-73 | an outcome that ends the request succeeds exactly for a 2xx response; 404 gives the not-found text, another status the fetch-failed text, a transport error the network-error text |
| HttpClient.Delays | apple-docs/src/apple_docs/utils/http_client.py:59-65 | the wait before retry `k` is `RETRY_DELAY * 2 ** k` seconds |
| HttpClient.Decider | apple-docs/src/apple_docs/utils/http_client.py:44-66 | the deciding attempt is the first that is not retried, or the last one allowed |
| HttpClient.RetryCorrect | apple-docs/src/apple_docs/utils/http_client.py:40-73 | between one and `RETRIES + 1` attempts with a wait before each but the first; every attempt but the last was retried; success, 404 and client errors end it at once and a retried failure only when the attempts are used up |
| HttpClient.NoRetryOnClientError | apple-docs/src/apple_docs/utils/http_client.py:52-55 | a 404 ends the request with the not-found text, any other 4xx but 429 with the fetch-failed text, after one attempt |
| HttpClient.AllAttemptsFail | apple-docs/src/apple_docs/utils/http_client.py:57-72 | when every attempt is retried, four are made with waits of 1, 2 and 4 seconds, and the last failure's kind picks the message |
| HttpClient.DeciderFinds | apple-docs/src/apple_docs/utils/http_client.py:44-66 | the deciding attempt is the one after a run of retried attempts that itself ends the request |
| HttpClient.RequestWithRetry | apple-docs/src/apple_docs/utils/http_client.py:40-73 | the loop makes exactly the attempts and waits of the retry specification and returns its result |
| HttpClient.Client.constructor | apple-docs/src/apple_docs/utils/http_client.py:16-17 | both caches start empty |
| HttpClient.Client.GetText | apple-docs/src/apple_docs/utils/http_client.py:75-95 | a cached URL is answered without a request and nothing changes; otherwise the result is the request's, and a success is cached after pruning the oldest entry of a full cache; at most 100 entries |
| HttpClient.Client.GetJson | apple-docs/src/apple_docs/utils/http_client.py:97-120 | as for text, but the body is parsed first; a body that does not parse gives the parse-failed text and caches nothing |
| HttpClient.Client.ClearCache | apple-docs/src/apple_docs/utils/http_client.py:122-125 | both caches end up empty |
| HttpClient.ParsedResponse | apple-docs/src/apple_docs/utils/http_client.py:113-120 | succeeds exactly when the request and the parse do; a request failure is passed through |
| SequentialThinking.ValidateThoughtDataCorrect | sequential-thinking/main.go:142-153 | exactly the thoughts with a text and positive numbers pass, and each failure names the first check that fails |
| SequentialThinking.Adjusted | sequential-thinking/main.go:230-232 | the stored thought is the input with its total raised to the thought number when smaller, so the total is never below the number |
| SequentialThinking.AdjustedAccepted | sequential-thinking/main.go:230-232 | raising the total keeps a valid thought valid and never lowers the total |
| SequentialThinking.RecordBranch | sequential-thinking/main.go:236-242 | a thought that records a branch adds its id to the keys, otherwise the branches are unchanged; other branches never change |
| SequentialThinking.PositiveBranchPointIgnored | sequential-thinking/main.go:236 | a thought that branches from a positive thought number never changes the branches, as the comparison is written |
| SequentialThinking.RecordBranchAppends | sequential-thinking/main.go:238-241 | the branch of a recorded thought ends with it, after what it held before |
| SequentialThinking.SortedKeys | sequential-thinking/main.go:250 | the branch ids, each once, in strictly ascending order |
| SequentialThinking.Utf8Len | sequential-thinking/main.go:202 | a string's Go length, its UTF-8 byte count, is at least its number of characters |
| SequentialThinking.FormatThoughtLayout | sequential-thinking/main.go:202-218 | both paddings are at least two spaces, so the repeat count is never negative, and the header and thought rows pad to the same byte width, two less than the border |
| SequentialThinking.ColoredHeader | sequential-thinking/main.go:159-199 | the coloured header is the coloured label followed by the rest of the plain header; a revision is labelled as one even when it branches |
| SequentialThinking.AcceptKeepsValid | sequential-thinking/main.go:234-242 | accepting a valid thought keeps the state consistent: every stored thought valid, every branch non-empty and holding only thoughts of the history recorded under its id |
| SequentialThinking.Server.constructor | sequential-thinking/main.go:127-139 | empty history and branches; logging is off exactly when the variable parses as true |
| SequentialThinking.Server.Store | sequential-thinking/main.go:234-242 | the thought goes to the end of the history and, when it records a branch, to the end of that branch |
| SequentialThinking.Server.ProcessThought | sequential-thinking/main.go:222-273 | an invalid thought is refused and changes nothing; a valid one is stored with its total raised, recorded in its branch, logged unless logging is off, and answered with its numbers, the sorted branch ids and the history length |
| VertexValidators.ValidateScope | vertex-memory-bank/src/vertex_memory_bank/validators.py:11-20 | a scope passes exactly when it is a non-empty dict whose keys and values are all strings |
| VertexValidators.ValidateScopeMessages | vertex-memory-bank/src/vertex_memory_bank/validators.py:13-19 | the three rejections, not a dict, empty, and a non-string pair, come in the order they are checked |
| VertexValidators.CheckTurn | vertex-memory-bank/src/vertex_memory_bank/validators.py:30-37 | a turn's rejection names its index with one of the three turn messages; an unhashable role raises instead |
| VertexValidators.CheckTurnGood | vertex-memory-bank/src/vertex_memory_bank/validators.py:30-37 | a turn passes exactly when it is a dict with a known role and non-empty string content |
| VertexValidators.ValidateConversationAccepts | vertex-memory-bank/src/vertex_memory_bank/validators.py:23-38 | a conversation passes exactly when it is a non-empty list of good turns |
| VertexValidators.ValidateConversationFirstBad | vertex-memory-bank/src/vertex_memory_bank/validators.py:29-37 | the answer is that of the first turn that fails, never an acceptance |
| VertexValidators.ValidateMemoryFactCorrect | vertex-memory-bank/src/vertex_memory_bank/validators.py:41-49 | a fact passes exactly when it is a string, not all whitespace, of at most 10 000 characters; whitespace is checked before length |
| VertexValidators.FactLengthBoundary | vertex-memory-bank/src/vertex_memory_bank/validators.py:47 | a fact of exactly 10 000 characters passes, one of 10 001 is too long, and the empty fact is empty |
| VertexValidators.ValidateMemoryTopicsCorrect | vertex-memory-bank/src/vertex_memory_bank/validators.py:52-61 | `None` passes, as does a list of non-empty strings; an empty or non-string entry is reported, and a non-iterable value is rejected |
| VertexValidators.ValidateTopK | vertex-memory-bank/src/vertex_memory_bank/validators.py:64-70 | a size passes exactly when it is between 1 and 100 |
| VertexValidators.ValidateScopeExamples | vertex-memory-bank/tests/test_validators.py:6-11 | a string-to-string dict passes and a list is not a dict |
| VertexValidators.ValidateConversationAcceptsExample | vertex-memory-bank/tests/test_validators.py:14-21 | a two-turn user and assistant conversation passes |
| VertexValidators.ValidateConversationRoleExample | vertex-memory-bank/tests/test_validators.py:22 | a turn with an unknown role is reported with its index |
| VertexValidators.ValidateValueExamples | vertex-memory-bank/tests/test_validators.py:25-39 | the fact, topics and size cases of the validators' tests |
| VertexFormatters.SafeGet | vertex-memory-bank/src/vertex_memory_bank/formatters.py:15-22 | the object's own attribute unless it is `None`, else the attribute of its `api_resource`, else `None` |
| VertexFormatters.FormatMemory | vertex-memory-bank/src/vertex_memory_bank/formatters.py:10-31 | the empty payload exactly for `None` |
| VertexFormatters.SafeGetFallback | vertex-memory-bank/src/vertex_memory_bank/formatters.py:16-21 | a field the object lacks, or holds as `None`, comes from `api_resource` |
| VertexFormatters.FormatMemoryUnwraps | vertex-memory-bank/src/vertex_memory_bank/formatters.py:24-31 | a wrapper with a `memory` attribute is read through it, even when that attribute is `None`, giving a record of `None`s rather than the empty payload |
| VertexFormatters.FormatMemoryOwnFields | vertex-memory-bank/src/vertex_memory_bank/formatters.py:24-31 | an object with its own fields and no `memory` attribute gives them back, the times through `str` |
| VertexFormatters.FormatMemoryStub | vertex-memory-bank/tests/test_formatters.py:8-20 | the stub memory of the formatters' tests gives back its name, fact and scope |
| VertexFormatters.Subscript | vertex-memory-bank/src/vertex_memory_bank/formatters.py:39-40 | `turn[key]` succeeds exactly for a dict holding the key, a `KeyError` otherwise for a dict and a `TypeError` for anything else |
| VertexFormatters.FormatConversationEventsSucceeds | vertex-memory-bank/src/vertex_memory_bank/formatters.py:34-44 | the events succeed exactly when every turn is a dict with a role and a content |
| VertexFormatters.FormatConversationEventsContents | vertex-memory-bank/src/vertex_memory_bank/formatters.py:36-44 | one event per turn, in order, carrying the turn's role and its content as the only part's text |
| VertexFormatters.ValidatedConversationFormats | vertex-memory-bank/src/vertex_memory_bank/validators.py:23-38 | a conversation that passes validation always turns into events, one per turn, each with a known role and non-empty text |
| VertexFormatters.FormatConversationEventsExample | vertex-memory-bank/tests/test_formatters.py:23-29 | the transcript of the formatters' tests gives its two events in order |
| VertexFormatters.FormatErrorResponseCorrect | vertex-memory-bank/src/vertex_memory_bank/formatters.py:47-52 | the status `error` and the message always, in that order; the details after them, only when they are non-empty |
| VertexFormatters.SuccessBase | vertex-memory-bank/src/vertex_memory_bank/formatters.py:57-59 | the status `success` first, and the message exactly when it is non-empty |
| VertexFormatters.FormatSuccessResponseCorrect | vertex-memory-bank/src/vertex_memory_bank/formatters.py:55-62 | every data key ends up with the data's value, overriding status or message; otherwise the status is `success` and the message is present exactly when non-empty; the status stays the first key |
| VertexFormatters.SerializeMemories | vertex-memory-bank/src/vertex_memory_bank/formatters.py:71-73 | one payload per memory |
| VertexFormatters.SerializeMemoriesCorrect | vertex-memory-bank/src/vertex_memory_bank/formatters.py:71-73 | each payload is `format_memory` of the memory in the same place, empty exactly where the memory is `None` |
| VertexConfig.Config.CopyWithAgentEngine | vertex-memory-bank/src/vertex_memory_bank/config.py:44-48 | a configuration that differs from the original only in its engine name, which is the given one |
| VertexConfig.DefaultConfig | vertex-memory-bank/src/vertex_memory_bank/config.py:18-27 | no project (so no client can be made), location `us-central1`, no engine name and no credentials |
| VertexConfig.FromEnvCorrect | vertex-memory-bank/src/vertex_memory_bank/config.py:29-42 | an empty environment gives the defaults; the configuration can make a client exactly when the project variable is set and non-empty; credentials are kept only when non-empty |
| VertexConfig.CopyWithAgentEngineLaws | vertex-memory-bank/src/vertex_memory_bank/config.py:44-48 | copying with the same name twice is copying once, a second name replaces the first, the project configuration never changes, and copying with the current name changes nothing |
| VertexEngines.Candidates | vertex-memory-bank/src/vertex_memory_bank/engines.py:10-14 | the engine first, then only the non-`None` nested objects, at most four in all |
| VertexEngines.FirstName | vertex-memory-bank/src/vertex_memory_bank/engines.py:15-19 | the error exactly when no candidate has a truthy name |
| VertexEngines.FirstNameFinds | vertex-memory-bank/src/vertex_memory_bank/engines.py:15-18 | the name found is that of the first candidate whose name is truthy, through `str` |
| VertexEngines.ExtractAgentEngineNameCorrect | vertex-memory-bank/src/vertex_memory_bank/engines.py:8-19 | an engine with a truthy name of its own is named by it; the error comes exactly when no candidate has one |
| VertexEngines.NamedByApiResource | vertex-memory-bank/src/vertex_memory_bank/engines.py:10-18 | an engine without a name of its own but whose `api_resource` has one is named by the `api_resource` |
| VertexClients.BuildCreationConfig | vertex-memory-bank/src/vertex_memory_bank/clients.py:114-135 | nothing exactly for no topics; otherwise one customization with one managed topic per topic, in order |
| VertexClients.ChooseEnginePriority | vertex-memory-bank/src/vertex_memory_bank/clients.py:76-87 | forcing always creates; an explicit name is fetched exactly when truthy and not forced; the cached name is reused exactly when there is no explicit name, it is truthy and not forced |
| VertexClients.EngineOutcome | vertex-memory-bank/src/vertex_memory_bank/clients.py:76-87 | reusing gives the cached name; fetching or creating gives the SDK call's exception when it raises, otherwise the name extracted from the engine it returned |
| VertexClients.VertexClientManager.constructor | vertex-memory-bank/src/vertex_memory_bank/clients.py:27-33 | the given configuration, no client and no engine name |
| VertexClients.VertexClientManager.EnsureClient | vertex-memory-bank/src/vertex_memory_bank/clients.py:44-65 | the client is reused exactly when it serves the project and location; otherwise the constructor is called: when it raises, its exception comes back and nothing changes, else the new client is stored and the configuration takes the new project and location, keeping engine name and credentials, so the manager then serves them |
| VertexClients.VertexClientManager.RequireClient | vertex-memory-bank/src/vertex_memory_bank/clients.py:93-97 | the client, or the not-initialized error exactly when there is none |
| VertexClients.VertexClientManager.RequireAgentEngineName | vertex-memory-bank/src/vertex_memory_bank/clients.py:99-103 | the engine name, or the not-initialized error exactly when there is none |
| VertexClients.VertexClientManager.RequireReady | vertex-memory-bank/src/vertex_memory_bank/clients.py:105-107 | both, or the not-initialized error exactly when either is missing |
| VertexClients.VertexClientManager.EnsureAgentEngine | vertex-memory-bank/src/vertex_memory_bank/clients.py:67-91 | without a client it fails and changes nothing; otherwise the outcome of the chosen branch, including an SDK exception; a name that comes out is stored as the engine name and in the configuration; any failure changes nothing |
| VertexClients.VertexClientManager.Reset | vertex-memory-bank/src/vertex_memory_bank/clients.py:109-112 | the client and engine name are forgotten; the configuration stays |
| VertexClients.VertexClientManager.Bootstrap | vertex-memory-bank/src/vertex_memory_bank/clients.py:35-42 | nothing without a project; a failing client constructor is reported and changes nothing; otherwise a client serving the configured project and location and, when the configuration names an engine, that engine fetched: on success stored as the engine name and in the configuration, which otherwise keeps its project, location and credentials; on failure reported with the client kept and the engine name and configuration unchanged |
| VertexAppState.AppState.constructor | vertex-memory-bank/src/vertex_memory_bank/app_state.py:16-22 | the default configuration, no manager and no service, so not ready |
| VertexAppState.AppState.Reset | vertex-memory-bank/src/vertex_memory_bank/app_state.py:33-39 | the old manager, if any, forgets its client and engine name; the state is back to the defaults and not ready |
| VertexAppState.AppState.Attach | vertex-memory-bank/src/vertex_memory_bank/app_state.py:41-51 | the three collaborators are stored as given; the state is then ready exactly when the manager holds a client and an engine name |

## Left out

- File and JSON I/O (`read_bundled_file`, orjson, aiofiles, `is_data_available`): the bundled archive is a map from file path to the parsed record or a read error.
- `load_topic_index` and `load_year_index` (apple-docs/src/apple_docs/utils/wwdc_data_source.py:98-137) are not part of this model; the by-year and by-topic lookups are modelled on the video list.
- `get_wwdc_video` and `format_video_detail` (apple-docs/src/apple_docs/tools/wwdc.py:185-202, 540-615) are not part of this model.
- `format_json_documentation` (apple-docs/src/apple_docs/tools/fetcher.py:73-130) is not part of this model; the documentation JSON is shaped and rendered through the other fetcher and formatter functions.
- `asyncio.gather` is modelled as a sequential map that drops the failed loads; the order of concurrent completion is not modelled.
- `sync.Mutex` in the sequential-thinking server and the asyncio locks of the other servers: the model is single-threaded.
- The regular-expression engine: the compiled pattern in the framework symbol search is a predicate parameter; the session file-name pattern is modelled as a hand-written suffix parser.
- BeautifulSoup HTML parsing and `urlparse`: the parsed element fields, host and path are inputs.
- `quote()` of the search URL and the search page fetch are parameters of the search model.
- `_fetch_framework_data` (apple-docs/src/apple_docs/tools/frameworks.py:49-57): the fetch of the index and documentation JSON is a parameter, so the fallback between the two endpoints is the parameter's.
- httpx network calls: each request's outcome is given by an outcome function of the attempt number.
- `asyncio.sleep` delays are modelled as whole seconds, `RETRY_DELAY * 2^k`; floating point is not modelled.
- The random User-Agent header is not modelled; the header constant it reads does not exist among the shown constants.
- The trailing `raise` after the retry loop (apple-docs/src/apple_docs/utils/http_client.py:73) cannot be reached and is not modelled.
- The `__new__` singleton of the HTTP client and `close()`: the client is an ordinary object.
- Module-level caches are fields of the objects that own them.
- `format_ttl_expiration` (vertex-memory-bank/src/vertex_memory_bank/formatters.py:65-68) reads the wall clock and is not part of this model.
- The JSON marshalling error branch of `ProcessThought` in sequential-thinking/main.go cannot be modelled without a JSON encoder; the response is a datatype.
- Writing the thought log to stderr is not modelled; the box is returned as a string, the colour codes are plain constants, and only the layout of the box is stated.
- Go `int` is modelled unbounded; overflow of thought numbers is not modelled.
- Case folding, `strip` and `capitalize` act on ASCII only; Unicode case mapping is not modelled.
- IsDigit: only the ASCII digits `0`-`9` are digits; the non-ASCII decimal digits that Python's `int()` and the regular expression `\d` accept are not modelled.
- ParseInt: `int()` is modelled on ASCII digits with an optional sign and surrounding whitespace; `_` separators between digits and non-ASCII decimal digits are not accepted, so `WwdcReport.FirstNonInt` and `WwdcReport.YearGroupsFail` report such a year as not an integer.
- TrailingDigits: `\d` in the session file-name pattern is ASCII-only, so `WwdcFiles.ParseVideoFileNameComplete` does not cover file names with non-ASCII decimal digits.
- WwdcTopics.BrowseWwdcTopics: an `index.json` that parses to a falsy value is modelled as `{}` only, giving the `'topics'` `KeyError` text; the `TypeError` texts the source reports for `null`, `[]`, `""`, `0` and `false` are not modelled.
- DocJson: an explicit JSON `null` is read as a missing key, so `.get(k, d)` gives `d` where Python gives `None` (a `null` title renders `# None` in the source, a `null` section list raises); this holds for the documentation, catalogue and search JSON alike.
- WwdcReport.IntError: `repr` is modelled for characters below U+0100 (quote choice, backslash escapes, `\xNN` for unprintable ones, the 200-character cut); other non-printable Unicode characters, which `repr` escapes, are kept as they are.
- Records are assumed to carry every key their `TypedDict` declares: a summary record without `year` (which the source sorts as `""` and then fails on when indexing) is not representable.
- Python's `1 == True` key equality is not modelled: `PyInt(1)` and `PyBool(true)` are distinct keys.
- `validate_memory_topics` treats an arbitrary object as not iterable.
- `str()` of values other than strings, numbers, booleans and `None` is a parameter (`objStr`).
- The normalisation of `credentials_path` to a `Path` is not modelled; the path is kept as a string.
- The SDK calls (client constructor, engine get and create) are function parameters that give a result or the text of the exception they raise; the exception types are not modelled.
- Logging calls are not modelled.
- SDK and transport wrappers are not part of this model: services, tools, server, concurrency and prompts of vertex-memory-bank, the mem0 servers, the weaviate servers, the apple-docs server, and `main()` with its flag, HTTP and stdio setup in sequential-thinking/main.go.
- The exact markdown prose of the WWDC and documentation renderers is not stated beyond the section structure, the ordering and the empty-result cases that the lemmas state.
