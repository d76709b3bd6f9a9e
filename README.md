# YouTube channel collection: server core and URL helpers

This project models the server core of a small web application. Users add YouTube
channels to it, and it collects the long-form videos of each channel. Three parts are
modelled:

- **server/storage.ts `MemStorage`**: the in-memory store of channels and videos
  (class `Storage.MemStorage`).
  - Each `Map<number, …>` is a sequence field in insertion order.
  - Keys come from counters that only grow, so that order is ascending key order. The
    class invariant `Valid` says exactly this.
- **server/routes.ts**: the pieces below.
  - The two routes that change the store: `POST /api/channels` and
    `DELETE /api/videos/:id` (module `Routes`).
  - The channel lookup `fetchChannelMetadata` (module `ChannelMetadata`).
  - The channel-URL parser `extractChannelId` (module `ChannelUrls`).
  - The background ingestion `fetchChannelVideos`: the paging loop, the id list, the
    Shorts filter and the store loop (module `Ingestion`).
  - The ISO 8601 duration reader `parseDuration` (module `Duration`).
- **client/src/lib/youtube.ts**: `extractVideoId`, `isValidYouTubeUrl` and
  `getYouTubeEmbedUrl` (module `VideoUrls`). server/routes.ts:102-116 holds a copy of
  `extractVideoId` that nothing calls. It is the same function and is modelled once.

Module `Patterns` gives the meaning of the JavaScript regular expressions these
functions use.
- Every URL pattern is a list of literal alternatives followed by one capture group. That
  group is a greedy, non-empty run of one character class.
- `String.prototype.match` reports the match that starts leftmost.
- At one position, the alternatives are tried in the order written.
- A `for (const pattern of patterns)` loop with an early return takes the first pattern
  that matches (`FirstSome`).

The YouTube Data API and the environment become parameters:
- A search answer and a channel-details answer are functions of the query.
- The pages of the upload search are a sequence: `pages[k]` answers request `k`.
- The video-details answer is a function of the id list.
- `YOUTUBE_API_KEY` is an `Option<string>`.
- Each answer says whether the request threw, came back not ok, or came back ok with
  its data.

What is proved, in outline:
- **Round trips.**
  - The watch URL the server stores for a video gives back its id through
    `extractVideoId`.
  - A `/channel/` page and an `@handle` page give back their reference through
    `extractChannelId`.
  - A written duration `PT…H…M…S` reads back as its number of seconds.
- **Leftmost-first semantics.**
  - Each extracted id follows a recognised prefix.
  - A `null` means no prefix is followed by an id character anywhere.
- **Channel lookup.**
  - Every error message `fetchChannelMetadata` can produce, each exactly when it is
    produced, and what a success returns.
  - The id is resolved exactly as the source decides: a `UC…` reference as it is, the
    first search hit when the search answers ok with one, the reference otherwise,
    unless the search request throws.
  - A canonical `UC…` reference makes no search.
- **The paging loop.** It equals its recursive specification, collects a run of ok
  pages, and stops below 75 uploads.
- **The Shorts filter.** It keeps exactly the uploads of a minute or more, in order.
- **The store loop and `fetchChannelVideos`.** They store exactly those records, with
  consecutive keys.
- **Every `MemStorage` operation.**
  - Each keeps keys unique and ascending.
  - Deleting removes exactly the entry with the key.
- **`POST /api/channels`.**
  - It answers 400, 500, 400 (duplicate) or 200 exactly as the route does.
  - Only the 200 answer stores a channel and starts a video job; every other answer
    leaves the channels and their counter as they were.
  - It keeps channel names unique.

Two fallbacks of the code are narrower than they may look, and the model follows the
code:
- The channel search keeps the reference as a fallback only when it answers not ok or
  finds nothing. The search fetch (server/routes.ts:135) is inside the `try` opened at
  server/routes.ts:129, so a search request that throws (network failure, unreadable
  JSON) reaches the `catch` at server/routes.ts:170, and the lookup fails with "Failed
  to fetch channel information".
- The paging keeps what it has collected only when a page answers not ok (the `break`
  at server/routes.ts:214-218). The page fetch (server/routes.ts:212) is inside the
  `try` opened at server/routes.ts:203, so a page request that throws reaches the job's
  `catch` at server/routes.ts:289, and nothing is stored.

## Model

| member | source | states |
|---|---|---|
| `Patterns.RunLength` | client/src/lib/youtube.ts:3 | the greedy `[^…]+` run at a position: every character in it is allowed and the next one is not (or the text ends) |
| `Patterns.RunLengthUnique` | client/src/lib/youtube.ts:3 | a maximal allowed run is the one the greedy quantifier takes |
| `Patterns.CaptureAt` | client/src/lib/youtube.ts:3 | the capture of `p([allowed]+)` at `i` exists iff `p` occurs at `i` followed by an allowed character; it is then the whole maximal run after `p` |
| `Patterns.MatchAt` | client/src/lib/youtube.ts:3 | a group of alternatives matches at a position iff one of its alternatives does |
| `Patterns.MatchedAlternative` | client/src/lib/youtube.ts:3 | the match at a position is the capture of the first alternative, in written order, that succeeds there |
| `Patterns.LeftmostMatch` | client/src/lib/youtube.ts:8 | the unanchored search finds the leftmost position that matches, and no earlier one matches; with no result, no position matches |
| `Patterns.Search` | client/src/lib/youtube.ts:8-11 | `s.match(re)?.[1]` is the match at the leftmost matching position, or null when no position matches |
| `Patterns.FirstSome` | client/src/lib/youtube.ts:7-14 | the pattern loop returns the result of the first pattern, in order, that matches, and null only when none does |
| `Patterns.FindFrom` | server/routes.ts:296 | the leftmost occurrence of a literal at or after a position, or none anywhere |
| `Patterns.SearchFindsAt` | client/src/lib/youtube.ts:8-11 | a match at `i` with none before it is what the search returns |
| `Patterns.SearchFindsCapture` | client/src/lib/youtube.ts:8-11 | a successful search returns the capture of one alternative at one position |
| `Patterns.SearchMissesEverywhere` | client/src/lib/youtube.ts:8-11 | a failed search means no alternative is followed by an allowed character anywhere |
| `Patterns.LiteralSearchLeftmost` | server/routes.ts:185 | for a one-literal pattern the search returns the capture at the leftmost position where the literal is followed by an allowed character |
| `VideoUrls.ExtractVideoId` | client/src/lib/youtube.ts:1-15 | the first pattern's leftmost match wins; the second pattern is consulted only when the first matches nowhere; any id is non-empty and free of `&`, newline, `?` and `#` |
| `VideoUrls.ExtractedIdFollowsPrefix` | client/src/lib/youtube.ts:1-15 | an extracted id is the capture right after one of the four recognised prefixes |
| `VideoUrls.NoIdMeansNoPrefix` | client/src/lib/youtube.ts:1-15 | `null` means that no recognised prefix is followed by an id character anywhere in the URL |
| `VideoUrls.LeftmostWatchMatchWins` | client/src/lib/youtube.ts:3 | within the first pattern, the leftmost position where any of its three prefixes is followed by an id decides the result |
| `VideoUrls.ExtractsIff` | client/src/lib/youtube.ts:1-15 | an id is extracted iff some recognised prefix occurs in the URL with an id character after it |
| `VideoUrls.IsValidYouTubeUrl` | client/src/lib/youtube.ts:17-19 | a URL is valid iff some recognised prefix occurs in it with an id character after it, and then the extracted id is a non-empty run of id characters |
| `VideoUrls.GetYouTubeEmbedUrl` | client/src/lib/youtube.ts:21-23 | the embed URL is the `youtube-nocookie.com/embed/` address followed by exactly the id |
| `VideoUrls.WatchUrl` | server/routes.ts:267 | the stored watch URL is `https://www.youtube.com/watch?v=` followed by exactly the id |
| `VideoUrls.WatchUrlRoundTrip` | client/src/lib/youtube.ts:1-15 | the id is recovered from the watch URL the server stores for it |
| `VideoUrls.EmbedUrlNotRecognised` | client/src/lib/youtube.ts:1-23 | the embed URL the file builds is not one it recognises: for an id without `/` the extractor returns null |
| `ChannelUrls.PatternCapture` | server/routes.ts:185-186 | one channel pattern's capture is a non-empty run free of `/` and `?` |
| `ChannelUrls.ExtractChannelId` | server/routes.ts:176-192 | the result is the capture of the first pattern, in the order channel, c, user, @, that matches anywhere, and null iff none matches; any extracted reference is non-empty and free of `/` and `?` |
| `ChannelUrls.FirstMatchingPatternDecides` | server/routes.ts:184-189 | the first pattern, in order, that matches anywhere decides the result |
| `ChannelUrls.ExtractedRefFollowsPrefix` | server/routes.ts:176-192 | the reference is the capture right after one pattern's literal, at the leftmost place that literal is followed by a reference character |
| `ChannelUrls.NoRefMeansNoPrefix` | server/routes.ts:176-192 | `null` means that no literal is followed by a reference character anywhere |
| `ChannelUrls.ChannelPatternFirst` | server/routes.ts:178 | a `/channel/` match wins over every other form, wherever the others occur |
| `ChannelUrls.ChannelPageRoundTrip` | server/routes.ts:176-192 | the reference is recovered from `https://www.youtube.com/channel/<ref>` |
| `ChannelUrls.HandlePageRoundTrip` | server/routes.ts:176-192 | the handle is recovered from `https://www.youtube.com/@<handle>` |
| `ChannelUrls.HandlePageMisses` | server/routes.ts:178-180 | on a handle page the `/channel/`, `/c/` and `/user/` patterns match nowhere |
| `Duration.DigitChar` | server/routes.ts:299-301 | a digit below ten is written as the decimal character of that value |
| `Duration.Numeral` | server/routes.ts:299-301 | a number is written as a non-empty string of decimal digits |
| `Duration.NumeralValue` | server/routes.ts:299-301 | `parseInt` of a written number gives the number back |
| `Duration.LeadingDigitsOf` | server/routes.ts:296 | the greedy `\d+` in front of a non-digit takes exactly the digits |
| `Duration.ReadComponent` | server/routes.ts:296 | an optional group `(?:(\d+)U)?` consumes a suffix-preserving prefix of the text, and a non-zero amount only when it consumed something |
| `Duration.ParseDurationReadsFirstPT` | server/routes.ts:294-304 | the duration is read from the groups after the first `PT`, and is 0 when there is none |
| `Duration.NoDesignatorReadsZero` | server/routes.ts:297 | a string without `PT` reads as 0 seconds |
| `Duration.ParseFormatted` | server/routes.ts:294-304 | round trip: `PT<h>H<m>M<s>S`, each part optional and after any text free of `PT`, reads as h*3600 + m*60 + s |
| `Duration.GroupStep` | server/routes.ts:296-303 | one written group adds its amount times the seconds of its unit |
| `Duration.WrittenExamples` | server/routes.ts:295 | durations are written `PT1H2M3S`, `PT45S`, `PT2M` |
| `Duration.WrittenBoundaryExamples` | server/routes.ts:257-258 | the durations around the one-minute cut are written `PT1M0S`, `PT0M30S`, `PT0M59S` |
| `Duration.ReadExamples` | server/routes.ts:294-304 | `parseDuration("PT1H2M3S")` is 3723, `"PT45S"` is 45 and `"PT2M"` is 120 |
| `Duration.ReadBoundaryExamples` | server/routes.ts:294-304 | `parseDuration("PT1M0S")` is 60, `"PT0M30S"` is 30 and `"PT0M59S"` is 59, so the first is kept and the others are dropped as Shorts |
| `Duration.DayPartReadsZero` | server/routes.ts:296-297 | a duration with a day part (`P1DT2H`) has no `PT` and reads as 0 |
| `ChannelMetadata.IsCanonical` | server/routes.ts:134 | a reference is a channel id proper when it starts with `UC` |
| `ChannelMetadata.HasApiKey` | server/routes.ts:124-125 | an unset or empty `YOUTUBE_API_KEY` counts as missing |
| `ChannelMetadata.ResolveChannelId` | server/routes.ts:131-145 | a `UC…` reference is used as it is; otherwise a search that answers ok with a hit gives its first hit, a search that answers not ok or finds nothing gives the reference back, and only a throwing search fails |
| `ChannelMetadata.LookupChannel` | server/routes.ts:148-169 | success iff the answer is ok with a first item that has thumbnails; the result is then that item's title, its default picture and its description with falsy ones as null, and the id asked for; not ok and an empty list are the two named errors |
| `ChannelMetadata.FetchChannelMetadata` | server/routes.ts:118-174 | the three messages it can fail with, each exactly when it is produced: invalid URL iff no reference is extracted, missing key iff a reference but no key, the catch-all iff the resolution or the details lookup fails; a success is the details lookup for the resolved id |
| `ChannelMetadata.SuccessComesFromDetails` | server/routes.ts:129-169 | a success needs a reference and a key, and is the first channel of the details answer for the first search hit when the reference is not canonical and the search answered ok with one, and for the reference itself otherwise |
| `ChannelMetadata.CanonicalSkipsSearch` | server/routes.ts:134 | for a `UC…` reference the result is the same whatever the search would answer, and the id is the reference |
| `ChannelMetadata.HandlePageResolved` | server/routes.ts:118-174 | end to end for a handle page: the handle is searched and the first channel found is the one returned |
| `Ingestion.CollectFromPrefix` | server/routes.ts:208-233 | what the paging collects from request `k` on is the items of a run of ok pages starting at `k`; every page of the run but the last had a token, the total before the last page was under 50, and the run ends at a page that is not ok, at a page without a token or at the page that brought the total to 50 or more |
| `Ingestion.CollectFromBound` | server/routes.ts:206-233 | with pages of at most 25 items, the loop stops below 50 + 25 collected |
| `Ingestion.PaginateBound` | server/routes.ts:206-233 | at most 74 uploads are ever collected |
| `Ingestion.CollectFromNoneIff` | server/routes.ts:203-233 | the paging gives up without a result exactly when a request the loop actually makes throws: every earlier page was ok, had a token and kept the total under 50 |
| `Ingestion.Paginate` | server/routes.ts:204-233 | the uploads collected are the items of a run of ok pages from the first request on, in order and with repeats kept, stopped only by a page that is not ok, a missing token or a total of 50 or more; no result exactly when a request the loop makes throws, so a throwing answer after the loop has stopped keeps what was collected |
| `Ingestion.FullPagesStopAtCap` | server/routes.ts:206-233 | with full pages of 25 that always carry a token, the loop stops after the second page with exactly 50 uploads |
| `Ingestion.FetchVideoList` | server/routes.ts:204-233 | the `do … while` loop returns what the recursive specification of the paging says: nothing when a request throws |
| `Ingestion.VideoIds` | server/routes.ts:238 | the id list holds exactly the present, non-empty upload ids |
| `Ingestion.VideoIdsAppend` | server/routes.ts:238 | the id list of two runs of uploads is the first run's ids then the second's: order and repeats are kept |
| `Ingestion.VideoIdsOne` | server/routes.ts:238 | one upload contributes its id when present and non-empty, nothing otherwise |
| `Ingestion.SplitJoin` | server/routes.ts:238 | `join(',')` is undone by splitting at the commas, for ids without commas |
| `Ingestion.JoinEmptyIff` | server/routes.ts:238-241 | the joined list is empty iff no id survived the filter |
| `Ingestion.ToInsertVideo` | server/routes.ts:263-271 | the record for a details item: its title, its id, the watch URL of the id, the channel name, its duration, its date, and its medium thumbnail with a falsy one as null |
| `Ingestion.IsLongForm` | server/routes.ts:252-261 | an item is kept when its duration reads as 60 seconds or more |
| `Ingestion.LongFormRecords` | server/routes.ts:250-271 | at most one record per item, each a record of the channel whose duration reads as a minute or more |
| `Ingestion.LongFormRecordsExact` | server/routes.ts:250-280 | the records are exactly those of the items of a minute or more: none lost, nothing else kept |
| `Ingestion.LongFormRecordsSound` | server/routes.ts:250-280 | every record is at least a minute long, belongs to the channel and carries a watch URL from which its id is recovered |
| `Ingestion.ShortsDropped` | server/routes.ts:257-261 | of a 30-second, a 60-second and a 59-second item only the 60-second one is stored |
| `Ingestion.LongFormRecordsStep` | server/routes.ts:250-261 | one more item adds its record last when it is long-form, nothing otherwise |
| `Ingestion.SavedAfterStep` | server/routes.ts:250-280 | one turn of the loop keeps the store equal to the records of the items seen so far, stored one after another |
| `Ingestion.SaveNext` | server/routes.ts:252-279 | one turn of the details loop stores item `i` exactly when it is not a Short, with the next key |
| `Ingestion.SaveLongFormVideos` | server/routes.ts:249-280 | the loop stores exactly the long-form records, in order, with consecutive keys, returns their number and leaves the channels alone |
| `Ingestion.DetailsQuery` | server/routes.ts:238-244 | the details request is made for a non-empty id list |
| `Ingestion.DetailsQueriedIff` | server/routes.ts:195-244 | the details request is made iff the key is set, the paging finished without a throw and some upload carried an id |
| `Ingestion.JobRecords` | server/routes.ts:236-286 | the job stores records only when the details request was made and answered ok, and each is a long-form record of the channel |
| `Ingestion.FetchChannelVideos` | server/routes.ts:194-292 | the job stores exactly the long-form records of the details answer, with consecutive keys, and nothing without a key, after a throw or after a failed details request |
| `Schema.OrNull` | server/storage.ts:74-76 | a missing or empty text is stored as null, any other text is kept |
| `Storage.KeyIndex` | server/storage.ts:82-84 | the position of the entry with a key, or that no entry has it |
| `Storage.Delete` | server/storage.ts:105-107 | `Map.delete` removes one entry when the key is present, nothing otherwise |
| `Storage.DeleteKeepsKeys` | server/storage.ts:105-107 | deleting keeps the keys unique, ascending and below the counter |
| `Storage.DeleteRemovesExactlyKey` | server/storage.ts:105-107 | after a delete no entry has the key, and every entry with another key is still there |
| `Storage.AppendFreshKeepsKeys` | server/storage.ts:78 | storing under the next counter value keeps the keys unique and ascending |
| `Storage.ByChannel` | server/storage.ts:86-90 | the filter keeps exactly the videos of the channel |
| `Storage.ByChannelAppend` | server/storage.ts:86-90 | the filter distributes over concatenation: videos stored later come later in a channel's list |
| `Storage.StoredVideo` | server/storage.ts:92-103 | the stored video carries the new key, the input's title, id, channel name and URL, and null for falsy optional texts |
| `Storage.StoredVideosAt` | server/storage.ts:92-103 | input `i` of a run of inserts is stored as video `i` under key `firstId + i`: consecutive keys, in input order |
| `Storage.MemStorage.constructor` | server/storage.ts:29-36 | an empty store whose counters start at 1 |
| `Storage.MemStorage.GetAllChannels` | server/storage.ts:59-61 | every stored channel, in ascending id order |
| `Storage.MemStorage.GetAllVideos` | server/storage.ts:55-57 | every stored video, in ascending id order |
| `Storage.MemStorage.GetChannelByName` | server/storage.ts:63-67 | the earliest stored channel with the name, or none when no channel has it |
| `Storage.MemStorage.GetVideosByChannel` | server/storage.ts:86-90 | the loop returns the channel's videos in storage order |
| `Storage.MemStorage.CreateChannel` | server/storage.ts:69-80 | the channel is appended under the next id, above every stored id, with falsy optional texts stored as null; the counter moves on by one and the videos are untouched |
| `Storage.MemStorage.CreateVideo` | server/storage.ts:92-103 | the video is appended under the next id, above every stored id, with falsy optional texts stored as null; the counter moves on by one and the channels are untouched |
| `Storage.MemStorage.DeleteChannel` | server/storage.ts:82-84 | `true` iff a channel had the id; that channel and nothing else is removed |
| `Storage.MemStorage.DeleteVideo` | server/storage.ts:105-107 | `true` iff a video had the id; that video and nothing else is removed |
| `Routes.ChannelInput` | server/routes.ts:37-42 | what `createChannel` is given: the looked-up name, picture, id and description |
| `Routes.StoredChannel` | server/routes.ts:37-44 | the stored channel has the new key, the looked-up name, and the looked-up picture, id and description with falsy ones as null |
| `Routes.AppendNewNameKeepsUnique` | server/routes.ts:32-44 | adding a channel whose name is not stored keeps names unique |
| `Routes.AddChannel` | server/routes.ts:23-58 | 400 without a URL; 500 with the lookup's message when it fails; 400 for a name already stored; otherwise 200 with the stored channel, the channel appended, its counter moved on by one and its video job started; no channel and no job on any other answer; videos untouched and names kept unique |
| `Routes.DeleteVideo` | server/routes.ts:83-96 | 200 iff a video had the id, and that video alone is removed; 404 otherwise, and for a non-numeric id |

## Left out

- Network, JSON and Express plumbing are parameters or absent. This covers `fetch`,
  `response.json()`, `req.body`/`req.params`, `res.status().json()` and
  `createServer`. The routes return a status and a body, and the API answers are
  function parameters.
- The zod check `z.string().url()` is reduced to "a string or not" (`Option<string>`).
  URL syntax validation is not modelled.
- `parseInt(req.params.id)` is a parameter `Option<int>`, where `None` stands for
  `NaN`. Digit parsing of the path segment is not modelled.
- The GET routes (`/api/channels`, `/api/videos`, `/api/videos/channel/:channel`) are
  not modelled. They only call the `MemStorage` reads, which are modelled, and
  `decodeURIComponent`, which is not.
- The user table of `MemStorage` (`getUser`, `getUserByUsername`, `createUser`) is not
  part of this model. No route uses it.
- Background execution: `AddChannel` returns the ingestion job (`VideoJob`) instead of
  running it concurrently. `Ingestion.FetchChannelVideos` is the job itself. The
  interleaving of the job's writes with other requests is not modelled.
- Logging (`console.log`/`console.error`) is left out. It has no effect on results.
- Ingestion.FetchVideoList: the answers are a finite sequence, so running out of
  answers ends the paging. The source keeps asking while a page has a token and fewer
  than 50 uploads are collected, so an API that keeps returning empty pages with
  tokens would make it loop forever. That case is not modelled.
- Ingestion.SaveLongFormVideos: a details item is assumed to carry `contentDetails`
  and `snippet.thumbnails`. In the source a missing one throws out of the loop into
  the job's `catch`, which stops storing. That is not modelled.
- Ingestion.SaveLongFormVideos: the `try`/`catch` around `createVideo` is not
  modelled, because `MemStorage.createVideo` cannot throw.
- Ingestion.VideoIds: `SearchItem(None)` is a hit whose `id` has no `videoId`, which
  the filter drops. A hit with no `id` object at all makes `video.id.videoId` throw
  (server/routes.ts:238), the job's `catch` runs and nothing is stored. That case is
  not modelled.
- ChannelMetadata.ResolveChannelId: a channel-search hit with no `snippet` makes
  `searchData.items[0].snippet.channelId` throw (server/routes.ts:142), so the lookup
  fails with "Failed to fetch channel information". `SearchOk(channelIds)` carries the
  ids only and cannot represent that case.
- ChannelMetadata.LookupChannel: a missing `snippet.thumbnails` is modelled as a throw.
  Missing `snippet` or `title` fields are not modelled.
- Duration: `parseInt` of a very long digit string loses precision in floating point.
  The model reads digit strings as exact unbounded integers.
- Routes.AddChannel: for an error thrown with a message, the `catch` returns that
  message. The only errors that reach it are those of the channel lookup, and the
  model returns their messages. A storage failure cannot happen in `MemStorage`.
