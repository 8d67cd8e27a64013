# Incremental video fetch and cache engine — a Dafny model

This project models the core of `ai-video-analyzer`, a tool that pulls video
metadata from subscribed channels through the YouTube Data API. It keeps a
local JSON cache of known videos and selects videos for summarisation. Four
parts are modelled:

- **The current fetch engine** (`Videogetter` in
  `src/ai_video_analyzer/yt/Videogetter.py`). It resolves one uploads playlist
  per channel and walks each playlist page by page until a response carries no
  continuation token. It looks up the details of the ids on each page. In
  incremental mode it records only ids that are neither in the cache nor seen
  earlier in the run. It then replaces the cache file once, with the old list
  followed by the new records, and only when something new was found.
- **The legacy fetch engine** (`Videogetter` in `YT/Videogetter.py`). It runs
  the same algorithm with strict field access. Its full fetch,
  `getInformation`, has no empty-batch short-circuit and shares one page token
  across playlists. Its incremental fetch, `getNewInformation`, resets the
  token for each playlist and skips the lookup for an empty batch, but places
  its save-and-return inside the playlist loop.
- **The selection helpers of `scripts/pipeline.py`**: `parse_published_at`,
  `parse_since_date`, `filter_videos` (inclusive date threshold, stable
  newest-first sort, truncation), `format_summary_text` (one sentence per
  line), and `main`'s checks of `--max-videos` and `--since-date`.
- **`ChannelStorage`** (`YT/ChannelStorage.py`): a name → channel-id registry
  filled by searching the platform.

How the pieces are modelled:

- **The platform** is an abstract finite oracle (`YouTubeApi.Api`). It maps
  channel ids to `channels().list` answers and playlist ids to sequences of
  pages. A page holds video ids and an optional `nextPageToken`. The detail
  lookup and the channel search are arbitrary functions, where `None` stands
  for a failed request.
- **The client object** (`YouTubeApi.YouTube`) records every request it sends
  in `log`. That makes "no lookup is sent", "each walk starts with no token"
  and "the second playlist is never requested" statable.
- **The cache file** (`CacheStore.CacheFile`) is a state value: `Absent`,
  `Corrupt` (does not decode as JSON) or `Parsed(doc)`. Saving replaces it
  whole and counts the writes.
- **Each engine operation** is a method on a class with the source's fields.
  It is proved equal to a specification function (`InfoRun`, `NewRun`,
  `LegacyInfoRun`, `LegacyNewRun`). The promised properties are lemmas about
  those functions.

The code was followed wherever the prose description of the system differs
from it:

- The detail step records every item the lookup returns. It does not drop
  unknown ids itself.
- The incremental step also drops empty ids, and it checks each returned
  item's id against the known ids again.
- Only a JSON decoding error is recovered as an empty cache. A decoded document
  that is not a list also reads as empty.
- `filter_videos` can raise a `TypeError`. That happens when a naive timestamp
  is compared with an aware one, which the model keeps as
  `NaiveAwareComparison`.

## Model

| member | source | states |
|---|---|---|
| `YouTubeApi.ResumedPage` | src/ai_video_analyzer/yt/Videogetter.py:121-129 | on a platform that never hands out a token twice per playlist, sending the token the walk holds returns exactly the next page (a falsy token returns the first page) |
| `YouTubeApi.YouTube.ListChannels` | src/ai_video_analyzer/yt/Videogetter.py:59-63 | one `channels().list` request is logged; the answer is the platform's entry for the channel, or a failure |
| `YouTubeApi.YouTube.ListPlaylistItems` | src/ai_video_analyzer/yt/Videogetter.py:123-129 | one page request with `maxResults=50` and the given token is logged; the answer is the page that token selects |
| `YouTubeApi.YouTube.ListVideos` | src/ai_video_analyzer/yt/Videogetter.py:135-139 | one detail request for exactly the given ids is logged; the answer is the platform's |
| `YouTubeApi.YouTube.Search` | YT/ChannelStorage.py:20-26 | one `search().list` request with `maxResults=1` is logged; the answer is the platform's |
| `Records.LenientRecord` | src/ai_video_analyzer/yt/Videogetter.py:94-102 | the record takes the item's id, title, publish date, description and tags; each missing field (or a missing snippet) becomes `""` or `[]` |
| `Records.StrictRecord` | YT/Videogetter.py:55-64 | succeeds exactly when the snippet, id, title and publishedAt are all present, and then equals the lenient record; otherwise it is a KeyError for the first missing key in reading order |
| `Records.Encode` | src/ai_video_analyzer/yt/Videogetter.py:147-153 | a cached record is a JSON object with exactly the five keys, and `video_id` holds the record's id |
| `Records.DecodeEncode` | src/ai_video_analyzer/yt/Videogetter.py:42-49 | writing a record to the cache and reading it back gives the same record |
| `CacheStore.CacheFile.Save` | src/ai_video_analyzer/yt/Videogetter.py:42-49 | the file is replaced as a whole by the given list, with one more write |
| `CacheStore.CacheFile.Overwrite` | YT/Videogetter.py:135-138 | the legacy `json.dump` replaces the file with the given document, with one more write |
| `CacheStore.CachedList` | src/ai_video_analyzer/yt/Videogetter.py:31-40 | the decoded list when the file decodes to a list; `[]` when it is absent, does not decode, or decodes to anything else |
| `CacheStore.KnownIds` | src/ai_video_analyzer/yt/Videogetter.py:116 | succeeds exactly when every dict entry's id can go into a set; then it is the set of `video_id` values (or `""`) of the dict entries, with non-dict entries skipped |
| `CacheStore.KnownIdsAppend` | src/ai_video_analyzer/yt/Videogetter.py:161-163 | after appending records to the cache, the known ids are the old known ids plus exactly the appended records' ids |
| `Videogetter.FreshIds` | src/ai_video_analyzer/yt/Videogetter.py:132 | the kept ids are the page's ids that are non-empty and not known, in page order and with repeats kept (the page filtered by that condition) |
| `Videogetter.NewPage` | src/ai_video_analyzer/yt/Videogetter.py:131-139 | a page sends at most one detail lookup, and only for its non-empty list of fresh ids |
| `Videogetter.Videogetter.constructor` | src/ai_video_analyzer/yt/Videogetter.py:12-24 | stores the channels, the client and the cache; no uploads playlists yet |
| `Videogetter.Videogetter.LoadCache` | src/ai_video_analyzer/yt/Videogetter.py:31-40 | `_load_cache` returns `CachedList` of the file's state |
| `Videogetter.Videogetter.GetUploadIds` | src/ai_video_analyzer/yt/Videogetter.py:53-67 | the list is cleared and then holds one uploads playlist per channel, in channel order; one `channels().list` per channel is sent; a failed lookup stops the loop and reports that channel's error |
| `Videogetter.Videogetter.GetInformation` | src/ai_video_analyzer/yt/Videogetter.py:69-108 | the requests and the result are those of `InfoRun` |
| `Videogetter.Videogetter.FetchPlaylist` | src/ai_video_analyzer/yt/Videogetter.py:75-106 | one playlist walk, from no token until a page carries no truthy token, equals `InfoWalk` from page 0 |
| `Videogetter.Videogetter.RecordItems` | src/ai_video_analyzer/yt/Videogetter.py:94-102 | one lenient record per detail item is appended, in order |
| `Videogetter.Videogetter.GetNewInformation` | src/ai_video_analyzer/yt/Videogetter.py:110-168 | the requests, the cache state, the number of writes and the result are those of `NewRun`, whose bookkeeping `IncrementalRunContract` and whose pagination `IncrementalRunPages` state |
| `Videogetter.Videogetter.PullPlaylist` | src/ai_video_analyzer/yt/Videogetter.py:120-159 | one incremental playlist walk equals `NewWalk` from page 0 |
| `Videogetter.Videogetter.PullPage` | src/ai_video_analyzer/yt/Videogetter.py:131-155 | one incremental page equals `NewPage`; no lookup is sent when no fresh id remains |
| `Videogetter.Videogetter.AbsorbItems` | src/ai_video_analyzer/yt/Videogetter.py:141-155 | the loop over detail items equals `Absorb`: an item is recorded and its id becomes known, unless the id is empty or already known |
| `VideogetterProperties.NewPlaylistsSound` | src/ai_video_analyzer/yt/Videogetter.py:120-159 | every playlist walk keeps the invariant: known ids = loaded ids + found ids; the found records are distinct, non-empty and not in the cache; from an error-free start, every lookup asks only for non-empty ids that neither the cache nor an earlier lookup of the run supplied, and the records found are exactly those built from the lookups' answers |
| `VideogetterProperties.NewPageRecorded` | src/ai_video_analyzer/yt/Videogetter.py:131-155 | one page keeps the run's record: its lookup asks only for ids outside the cache and the records found so far, and the answer's new items are appended to the records |
| `VideogetterProperties.NewWalkRecorded` | src/ai_video_analyzer/yt/Videogetter.py:121-159 | a playlist walk keeps the run's record from page to page |
| `VideogetterProperties.AbsorbAppend` | src/ai_video_analyzer/yt/Videogetter.py:141-155 | the known ids carried across pages make absorbing two answers in turn the same as absorbing them joined |
| `VideogetterProperties.MergeKeepsKeysUnique` | src/ai_video_analyzer/yt/Videogetter.py:161-163 | appending the new records to a cache without duplicate ids keeps the ids unique |
| `VideogetterProperties.IncrementalRunContract` | src/ai_video_analyzer/yt/Videogetter.py:115-168 | the returned records are exactly those built from the lookups' answers: each answered item whose id is non-empty and seen neither in the loaded cache nor earlier, in order; so they have distinct, non-empty ids not in the loaded cache; every lookup asks only for non-empty ids that neither the cache nor an earlier lookup of the run supplied; the cache is written exactly when something was found, and then holds the loaded list followed by the new records in discovery order; a failed run writes nothing; a duplicate-free cache stays duplicate-free; that every new video on a walked page is looked up and returned is `IncrementalRunComplete` |
| `VideogetterProperties.IncrementalRunComplete` | src/ai_video_analyzer/yt/Videogetter.py:119-155 | against a platform whose lookup answers from a fixed catalog, a successful run leaves every catalog video listed on a page of any walked playlist either among the loaded ids or among the returned records, and so among the ids of the cache it leaves: every new video on a walked page is looked up and returned |
| `VideogetterProperties.SecondRunFindsNothing` | src/ai_video_analyzer/yt/Videogetter.py:110-168 | a second run against an unchanged platform returns `[]`, leaves the cache as the first run left it, and does not write |
| `VideogetterProperties.WalkPages` | src/ai_video_analyzer/yt/Videogetter.py:104-106 | a walk receives consecutive pages and asks again exactly while the last page carried a truthy token, whatever the size of that page; it ends at the first page without one |
| `VideogetterProperties.FullRunContract` | src/ai_video_analyzer/yt/Videogetter.py:69-108 | no detail lookup for a page without ids; on success, the page requests are the walks of all playlists in order, each starting with no token; the result is one lenient record per returned detail item, over all playlists and pages in order, with no dedup |
| `VideogetterProperties.NewWalkPagedTrace` | src/ai_video_analyzer/yt/Videogetter.py:121-159 | an incremental walk that ends without error requested exactly the pages `WalkPages` describes: consecutive pages from the given one, each request carrying the token of the page before it, up to the first page whose token is falsy |
| `VideogetterProperties.NewPlaylistsPagedTrace` | src/ai_video_analyzer/yt/Videogetter.py:120-159 | an incremental run over several playlists that ends without error requested exactly their walks, in playlist order |
| `VideogetterProperties.IncrementalRunPages` | src/ai_video_analyzer/yt/Videogetter.py:115-168 | a successful incremental run walks every uploads playlist in order, each from its first page with no token, and stops each walk at the first page whose continuation token is falsy |
| `LegacyVideogetter.Collect` | YT/Videogetter.py:55-64 | succeeds exactly when every item is complete, and then appends one record per item |
| `LegacyVideogetter.StrictId` | YT/Videogetter.py:81 | `v["video_id"]`: a KeyError for a dict without the key; a TypeError for a non-dict or an unhashable id |
| `LegacyVideogetter.StrictIds` | YT/Videogetter.py:81 | succeeds exactly when every entry yields an id, and then is the set of those ids |
| `LegacyVideogetter.LegacyLoad` | YT/Videogetter.py:77-86 | a missing or undecodable file gives `[]` and no known ids; a list gives its ids or the first entry's error; only `{}` and `""` among other documents iterate without error |
| `LegacyVideogetter.LegacyFreshIds` | YT/Videogetter.py:104 | the kept ids are the page's ids that are not known, in page order (the page filtered by that condition); empty ids and repeats are not dropped |
| `LegacyVideogetter.LegacyAbsorb` | YT/Videogetter.py:118-128 | succeeds exactly when every item is complete; then every item is recorded and its id becomes known, with no check against the known ids |
| `LegacyVideogetter.Merge` | YT/Videogetter.py:136 | `saved_videos + videos` succeeds exactly for a list and appends the records; a TypeError otherwise |
| `LegacyVideogetter.LegacyVideogetter.constructor` | YT/Videogetter.py:8-13 | stores the channels, the client, the cache and the document already read; no uploads playlists yet |
| `LegacyVideogetter.LegacyVideogetter.Open` | YT/Videogetter.py:8-13 | construction reads `videos.json` at once: it fails with FileNotFound for a missing file and DecodeError for an undecodable one |
| `LegacyVideogetter.LegacyVideogetter.GetUploadIds` | YT/Videogetter.py:18-27 | the list is not cleared: the earlier contents stay as a prefix, followed by one uploads playlist per channel in order |
| `LegacyVideogetter.LegacyVideogetter.GetInformation` | YT/Videogetter.py:30-70 | the requests and the result are those of `LegacyInfoRun`; the shared token is falsy whenever a playlist starts |
| `LegacyVideogetter.LegacyVideogetter.FetchPlaylist` | YT/Videogetter.py:34-68 | one legacy walk equals `LegacyInfoWalk` and ends, when it succeeds, with a falsy token |
| `LegacyVideogetter.LegacyVideogetter.CollectItems` | YT/Videogetter.py:55-64 | the loop over detail items equals `Collect` |
| `LegacyVideogetter.LegacyVideogetter.GetNewInformation` | YT/Videogetter.py:72-143 | the requests, the cache state, the number of writes and the result are those of `LegacyNewRun`, whose gating, writing and pagination `LegacyIncrementalRunContract` states |
| `LegacyVideogetter.LegacyVideogetter.PullPlaylist` | YT/Videogetter.py:89-132 | one legacy incremental walk from no token equals `LegacyNewWalk` from page 0 |
| `LegacyVideogetter.LegacyVideogetter.PullPage` | YT/Videogetter.py:101-128 | one legacy incremental page equals `LegacyNewPage`; no lookup when no unknown id remains, but the walk goes on |
| `LegacyVideogetter.LegacyVideogetter.AbsorbItems` | YT/Videogetter.py:118-128 | the loop over detail items equals `LegacyAbsorb` |
| `LegacyProperties.LegacyNewPageAccounted` | YT/Videogetter.py:101-128 | one legacy page keeps the account: its lookup asks only for ids neither the cache nor an earlier lookup supplied; on success the records are all items the lookups answered, and the known ids are the loaded ids plus theirs |
| `LegacyProperties.LegacyNewWalkAccounted` | YT/Videogetter.py:89-132 | a legacy playlist walk keeps that account from page to page |
| `LegacyProperties.LegacyNewPageLearns` | YT/Videogetter.py:101-128 | against a catalog-serving platform, one legacy page leaves every catalog video it lists known, and forgets nothing |
| `LegacyProperties.LegacyNewWalkLearns` | YT/Videogetter.py:89-132 | against a catalog-serving platform, an error-free legacy walk leaves every catalog video on each of its pages known |
| `LegacyProperties.LegacyIncrementalRunComplete` | YT/Videogetter.py:89-132 | against a catalog-serving platform, when the legacy run returns a list, every catalog video listed on a page of the first playlist's walk is among the loaded ids or among the returned records |
| `LegacyProperties.LegacyNewWalkPaged` | YT/Videogetter.py:89-132 | a legacy walk that ends without error requested exactly the pages `WalkPages` describes, up to the first page whose token is falsy |
| `LegacyProperties.LegacyIncrementalRunContract` | YT/Videogetter.py:72-143 | every lookup asks for a non-empty batch of ids that neither the loaded cache nor an earlier lookup supplied; the file is written exactly when a non-empty list is returned, and then holds the loaded list followed by those records, otherwise it is unchanged; a returned list is every record the lookups answered, in order, and the page requests are the walk of the first playlist only; that every unknown video on a walked page is looked up and returned is `LegacyIncrementalRunComplete` |
| `VersionComparison.FullRunsAgree` | YT/Videogetter.py:30-70 | on a platform where no strict read can fail, the legacy and current full runs fail on the same inputs and otherwise return the same records |
| `VersionComparison.LegacyNewRunFirstPlaylistOnly` | YT/Videogetter.py:89-143 | every page the legacy incremental run requests belongs to the first playlist; with no playlist it sends nothing, writes nothing and returns `None` |
| `VersionComparison.NewRunVisitsEveryPlaylist` | src/ai_video_analyzer/yt/Videogetter.py:120-159 | a successful current incremental run requests the first page of every uploads playlist |
| `VersionComparison.LegacySkipsSecondPlaylist` | YT/Videogetter.py:134-143 | for playlists A and B with one video each and no cache, the legacy run never requests B and returns only A's video; the current run returns both |
| `VersionComparison.LegacyRecordsDuplicates` | YT/Videogetter.py:104-128 | a page listing a video twice makes the legacy run record it twice; the current run records it once |
| `VersionComparison.LegacyFailsOnMissingTitle` | YT/Videogetter.py:55-64 | a detail item without a title makes the legacy full run raise `KeyError('title')`; the current run records it with an empty title |
| `VersionComparison.LegacyLooksUpEmptyPage` | YT/Videogetter.py:46-53 | for a page with no ids, the legacy full run still sends a detail lookup for `[]`; the current run sends only the page request |
| `Pipeline.ReplaceZ` | scripts/pipeline.py:66 | the result holds no `Z`; a string without `Z` is unchanged; a lone `Z` becomes `+00:00` and any other single character stays |
| `Pipeline.ReplaceZAppend` | scripts/pipeline.py:66 | the replacement works piecewise: replacing in a concatenation is concatenating the replaced pieces, so every `Z`, wherever it stands, becomes `+00:00` |
| `Pipeline.ParsePublishedAt` | scripts/pipeline.py:62-68 | an empty value is `None`; otherwise the ISO parse of the value with `Z` replaced |
| `Pipeline.AtOrAfter` | scripts/pipeline.py:86-90 | the kept records are those whose key is at or after the threshold, in input order and with their multiplicity (the input filtered by that condition) |
| `Pipeline.SortDesc` | scripts/pipeline.py:92-96 | the sort is a permutation of its input |
| `Pipeline.SortSorted` | scripts/pipeline.py:92-96 | the sort is newest first |
| `Pipeline.SortStable` | scripts/pipeline.py:92-96 | records with equal keys keep their input order |
| `Pipeline.Head` | scripts/pipeline.py:98-99 | `s[:n]` is a prefix of length `min(n, |s|)` for `n >= 0`, and drops the last `-n` elements for `n < 0` |
| `Pipeline.FilterVideosFails` | scripts/pipeline.py:86-96 | `filter_videos` raises exactly when a threshold is given and some key is naive, or no threshold is given and naive and aware keys mix |
| `Pipeline.FilterVideosSelects` | scripts/pipeline.py:79-101 | the result draws from the input as a sub-multiset, is newest first, respects the threshold, is a prefix of the sorted kept records of length `min(n, |kept|)`, and is all of them without `max_videos` |
| `Pipeline.FilterVideosKeepsAll` | scripts/pipeline.py:84-101 | without `max_videos` every kept record is returned; without a threshold either, the result is a permutation of the input |
| `Pipeline.FilterVideosStable` | scripts/pipeline.py:92-96 | in the result, records with equal keys appear in their input order |
| `Pipeline.UnparseableDropped` | scripts/pipeline.py:86-90 | with a threshold after `datetime.min`, records with an empty or unparseable publish date are dropped |
| `Pipeline.ValidateArgs` | scripts/pipeline.py:139-141 | rejects `max_videos <= 0` first, then a non-empty since-date that does not parse; otherwise gives the threshold instant exactly when a since-date was given |
| `Pipeline.AcceptedArgsTruncate` | scripts/pipeline.py:98-99 | with accepted arguments the result has exactly `min(max_videos, |kept|)` records, and is non-empty when anything was kept |
| `SinceDate.ParseFormatted` | scripts/pipeline.py:71-76 | a valid date written `YYYY-MM-DD` parses to midnight UTC of that day |
| `SinceDate.RejectsImpossibleDates` | scripts/pipeline.py:71-76 | a well-shaped date with year 0 or a day the month lacks is rejected |
| `SinceDate.AcceptedShape` | scripts/pipeline.py:71-76 | an accepted string is 8 to 10 characters long, starts with four digits and a dash, and denotes a valid date |
| `SinceDate.AcceptsUnpadded` | scripts/pipeline.py:73 | `strptime` also accepts an unpadded month and day (`2024-1-5`) |
| `SinceDate.TimestampOrder` | scripts/pipeline.py:71-76 | later calendar dates parse to later instants |
| `SummaryFormat.SplitLines` | scripts/pipeline.py:110 | no resulting line contains a line boundary |
| `SummaryFormat.TrimStart` | scripts/pipeline.py:111 | removes exactly the leading whitespace |
| `SummaryFormat.TrimEnd` | scripts/pipeline.py:111 | removes exactly the trailing whitespace |
| `SummaryFormat.FormatSummaryText` | scripts/pipeline.py:104-116 | the loop over the input lines returns `Formatted(summary)`: per input line, in order, the stripped non-empty sentence pieces, joined with newlines |
| `SummaryFormat.FormattedLinesShape` | scripts/pipeline.py:109-116 | the output's lines are exactly the emitted pieces; none is empty, each is stripped, and none contains a sentence boundary |
| `SummaryFormat.CutsAfterTerminals` | scripts/pipeline.py:114 | within one input line, every emitted sentence except the last ends in `.`, `!` or `?` |
| `SummaryFormat.FormattedWs` | scripts/pipeline.py:114-116 | deleting all whitespace from the output gives the input with all whitespace deleted |
| `SummaryFormat.FormattedIdempotent` | scripts/pipeline.py:104-116 | formatting an already formatted summary changes nothing |
| `ChannelStorage.ChannelLookup` | YT/ChannelStorage.py:18-29 | succeeds exactly when the search returns a first item with a channel id, and then gives that id; it is "No Youtube Channel found" exactly when the search returns no items |
| `ChannelStorage.AsMap` | YT/ChannelStorage.py:11 | the dict's keys are exactly the stored names |
| `ChannelStorage.AsMapLookup` | YT/ChannelStorage.py:44-45 | in a registry with distinct names, each name maps to its own id |
| `ChannelStorage.ChannelStorage.constructor` | YT/ChannelStorage.py:10-12 | the registry starts empty |
| `ChannelStorage.ChannelStorage.GetChannelId` | YT/ChannelStorage.py:18-29 | one search request is sent; the result is `ChannelLookup` |
| `ChannelStorage.ChannelStorage.AddChannelByName` | YT/ChannelStorage.py:34-39 | a known name changes nothing and sends nothing; a new name is searched, and on success inserted with the found id after the others; a failed lookup leaves the registry unchanged; names stay distinct |
| `ChannelStorage.ChannelStorage.GetChannels` | YT/ChannelStorage.py:44-45 | returns the registry, whose names are distinct |
| `ChannelStorage.AddInsertsOneKey` | YT/ChannelStorage.py:38-39 | adding a new name inserts exactly that key with the found id; every other entry keeps its id |

## Findings

| source | as written | input that shows it | evidently intended | confidence | as-written member | corrected member |
|---|---|---|---|---|---|---|
| YT/Videogetter.py:134-143 | the save and the `return` are indented inside the `for` loop over the uploads playlists | two playlists A and B, each with one new video, and no cache file: only A's video is saved and returned, and B is never requested | walk every uploads playlist, then save once (the comment on line 88 says all upload playlists); the current engine does this | high, not executed | `VersionComparison.LegacySkipsSecondPlaylist` | `VersionComparison.NewRunVisitsEveryPlaylist` |
| YT/Videogetter.py:104-128 | `new_ids` keeps repeated ids, and returned items are recorded without checking the known ids | a page listing video `a` twice, with a lookup that answers once per requested id: `a` is recorded twice and the cache gets a duplicate `video_id` | each video recorded at most once per run (line 128 adds each id to the known ids at once); the current engine does this | low, not executed (depends on the platform echoing repeated ids) | `VersionComparison.LegacyRecordsDuplicates` | `VideogetterProperties.IncrementalRunContract` |

## Left out

- IncrementalRunComplete: completeness (each new video on a walked page is looked up and returned) is stated for a platform whose lookup answers from a fixed catalog, because against an arbitrary platform the answer to a lookup need not contain the requested videos.
- LegacyIncrementalRunComplete: the same completeness, under the same fixed-catalog condition and for the same reason; it also covers only the first playlist, the only one the legacy run walks.
- Network I/O: the `channels()`, `playlistItems()`, `videos()` and `search()` calls are the abstract oracle `Api`. Any transport failure is a `None` answer, reported as `HttpError`, with no retry.
- The nested response keys (`contentDetails`, `relatedPlaylists`, `uploads`, `contentDetails.videoId`) are folded into the oracle's answer. A KeyError from a missing nested key is modelled only for `items`, for `channelId` in a search result, and for the legacy engine's strict snippet reads.
- The comma-join of ids in the detail request is not modelled. A request carries the id list itself.
- Pagination requires `WellFormed`: no token handed out twice within a playlist. An oracle that cycles tokens would make the source loop forever, so the walk methods require it.
- JSON encoding and decoding, the file system, the parent-directory creation and the temporary-file-then-rename replace are not modelled. The cache is a state value replaced in one step, so crashes and partial writes are not modelled either. JSON numbers are integers, and floating point is left out.
- Only `JSONDecodeError` is a `Corrupt` cache. Other read errors (undecodable bytes, permissions) are not modelled.
- `datetime.fromisoformat` is the oracle `iso`, which returns a naive or an aware instant, or nothing. Offsets and the ISO grammar are not modelled.
- `Pipeline.ParsePublishedAt`: stated over the oracle, so it does not say which strings parse.
- `SinceDate.ParseSinceDate` accepts ASCII digits only. Python's `\d` also matches other Unicode decimal digits.
- `str.strip`, `str.splitlines` and `re.split` are written out over Python's fixed whitespace and line-break sets. Unicode details beyond those sets are not modelled.
- `main` beyond its two argument checks is not modelled: argparse, channel defaults, writing `Summaries.json`, and all `print` output (warnings, counts, "no new videos").
- The engines' `print` calls are not modelled: the corrupt-cache warning and the saved-count and nothing-new messages of both engines (src/ai_video_analyzer/yt/Videogetter.py:39, 164, 166; YT/Videogetter.py:83, 139, 141) and the registry's messages (YT/ChannelStorage.py:19, 36). They only write to the console.
- OAuth bootstrapping (`get_credentials`), the LLM wrappers (`SummaryGenerator`, both `CommentGenerator`s), `config.py`, and the smoke scripts (`TestVideoloader.py`, `TestFieStorage.py`, `test.py`) are glue around foreign calls and are not part of this model.
- Python dicts are insertion-ordered sequences of pairs. `get_Channels` returns the registry's value, so aliasing of the returned dict is not modelled.
- Concurrency is not modelled: the system is single-threaded.
