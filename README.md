# retroplay: the video cache, quota tracker, random pick and error messages, in Dafny

retroplay serves a random pre-2011 music video. A server-side service empties
the `Video` collection, takes the YouTube search results, keeps the items
published on or before 2010-12-31T23:59:59Z and upserts each one by `videoId`
with category `classic`. A route answers `GET /api/videos/random` with the
document at a random offset, or 404. A monitoring service counts YouTube API
quota units per UTC day and warns above 80% of the 10000-unit daily quota. The
browser client has a helper, `getErrorMessage`, that picks one of ten canned
error messages and, on a mobile-width window, cuts it at its first `.`
(no file of the client shown here calls it).

The model, one module per file:

- `wrappers.dfy` (`Wrappers`): `Option` and `Result`.
- `random_draw.dfy` (`RandomDraw`): `Math.floor(Math.random() * n)`. The
  random value is the fraction `k / d` with `0 <= k < d`, so the index is
  `floor(k * n / d)`. It is always below `n` when `n > 0`, and every index
  is reachable.
- `video_model.dfy` (`VideoModel`): the `Video` schema as a datatype, the
  upsert as a function, and the collection as a class over a map from
  `videoId` to document.
- `youtube.dfy` (`YouTube`): `clearDatabase` and `fetchAndCacheVideos` as
  methods on the collection. The loop's invariant is that the collection
  equals `Cached(items[..i])` and `savedCount` equals
  `|Passing(items[..i])|`. The lemmas about `Cached` and `Passing` give the
  key set, record contents, last-wins order and count bounds.
- `monitoring.dfy` (`Monitoring`): `MonitoringService` as a class with its
  quota map. A registry object stands for the static `instance` behind
  `getInstance`.
- `video_routes.dfy` (`VideoRoutes`): `getRandomVideo` as a pure function of
  the documents in natural order, the draw, and a possible read error.
- `error_messages.dfy` (`ErrorMessages`): the message table, `isMobile`, and
  `split('.')[0]`. `Split` is given in full, with `Join` as its inverse.

The outside world becomes parameters:

- the search response is `Result<seq<SearchItem>, string>`;
- each item's parsed publish instant is `Option<int>` milliseconds, where
  `None` is an unparsable date, which never passes `<=`;
- the failures of `deleteMany` and of one upsert are a `Faults` value;
- the current instant (`fetchedAt`), today's date key and the window width
  are plain inputs.

`fetchAndCacheVideos` clears the collection before the search request, so a
failed search leaves it empty. The model reproduces that
(`YouTube.FetchAndCacheVideos`, second postcondition).

## Model

| member | source | states |
|---|---|---|
| `VideoModel.Upserted` | server/src/services/youtube.ts:55-65 | the upsert adds exactly the id to the key set; that document takes the update's title, description and category; every other document is unchanged; ids stay unique; `fetchedAt` is set on insert only |
| `VideoModel.VideoStore.DeleteMany` | server/src/services/youtube.ts:19 | the collection is empty afterwards |
| `VideoModel.VideoStore.FindOneAndUpsert` | server/src/services/youtube.ts:55-65 | the collection becomes the upsert of the old one, and id uniqueness is kept |
| `YouTube.Passing` | server/src/services/youtube.ts:52-54 | the kept items are drawn from the response, are never more than it, and all pass the date filter |
| `YouTube.PassingKeepsExactlyTheFilteredItems` | server/src/services/youtube.ts:52-54 | an item is kept exactly when it occurs in the response and is published by the cutoff (both directions) |
| `YouTube.SavedCountCountsPositions` | server/src/services/youtube.ts:51-66 | `savedCount` equals the number of response positions whose item passes the date filter, so a repeated id is counted each time |
| `YouTube.CachedKeys` | server/src/services/youtube.ts:52-68 | after the loop the set of stored ids is exactly the set of ids of items published by the cutoff |
| `YouTube.CachedRecordsWellFormed` | server/src/services/youtube.ts:55-63 | every stored document is filed under its own id, has category `classic`, and carries this run's `fetchedAt` |
| `YouTube.LastKeptItemWins` | server/src/services/youtube.ts:55-65 | when kept items share an id, the stored title and description are those of the last one |
| `YouTube.OnlyKeptItemsMatter` | server/src/services/youtube.ts:52-54 | items after the cutoff and items with unparsable dates leave no trace: the result equals that of the kept items alone |
| `YouTube.SavedCountBounds` | server/src/services/youtube.ts:51-69 | the number of stored documents is at most `savedCount`, which is at most the number of response items |
| `YouTube.ClearDatabase` | server/src/services/youtube.ts:17-21 | the collection is emptied, or on a failure the error is returned and the collection is unchanged |
| `YouTube.FetchAndCacheVideos` | server/src/services/youtube.ts:23-78 | a failed clear leaves the collection as it was; a failed search leaves it empty; a failed upsert at item i leaves exactly what the items before i produce; success carries the count the source only logs as `savedCount`, and leaves exactly `Cached(items)`, so nothing from a previous run survives |
| `Monitoring.QuotaRemaining` | server/src/utils/monitoring.ts:70 | the remaining quota plus the new count is 10000, and it is negative exactly when the count exceeds the quota |
| `Monitoring.Tracked` | server/src/utils/monitoring.ts:60-65 | today's usage grows by the cost, with a missing day counted as 0; no other day's usage changes |
| `Monitoring.WarningLevelIs8000` | server/src/utils/monitoring.ts:74 | the warning condition holds exactly when the new count exceeds 8000 |
| `Monitoring.TrackedAllAddsUp` | server/src/utils/monitoring.ts:60-78 | successive calls on one day add their costs to that day and to no other day; no call is refused |
| `Monitoring.MonitoringService.constructor` | server/src/utils/monitoring.ts:13-16 | a new service starts with an empty quota map |
| `Monitoring.MonitoringService.TrackYouTubeAPICall` | server/src/utils/monitoring.ts:60-79 | it returns the previous count plus the cost, updates only today's entry, and warns exactly above 80% of the quota |
| `Monitoring.MonitoringService.GetYouTubeQuotaUsage` | server/src/utils/monitoring.ts:81-87 | it reads without changing anything and returns today's date with its count, or 0 for a day never tracked |
| `Monitoring.MonitoringRegistry.GetInstance` | server/src/utils/monitoring.ts:18-23 | the first call creates a fresh service with an empty quota map; later calls return that same object |
| `Monitoring.GetInstanceTwice` | server/src/utils/monitoring.ts:18-23 | two calls of `getInstance` return the same object, which is the one already held when there was one |
| `Monitoring.TrackWithDefaultCost` | server/src/utils/monitoring.ts:60 | omitting the cost tracks one unit: the returned count and today's stored count both grow by 1, and reading today's usage back gives that count |
| `RandomDraw.ScaledIndex` | server/src/routes/videos.ts:9 | `floor(random * count)` is below `count` when `count > 0`, and 0 when `count == 0` |
| `RandomDraw.EveryIndexReachable` | server/src/routes/videos.ts:9 | when the draw has at least `count` values, every index below `count` is produced by some draw |
| `VideoRoutes.GetRandomVideo` | server/src/routes/videos.ts:6-21 | a read error is passed on; an empty collection gives 404 with `No videos found`; otherwise status 200 with the document at the drawn offset, which is in the collection |
| `VideoRoutes.EveryVideoCanBeChosen` | server/src/routes/videos.ts:8-17 | every document is the answer for some draw |
| `VideoRoutes.ChosenVideoIsStored` | server/src/routes/videos.ts:8-17 | on a listing of a non-empty collection, the answer is found and is the document stored under its own id |
| `VideoRoutes.EveryStoredVideoCanBeChosen` | server/src/routes/videos.ts:8-17 | every document of the collection is the answer for some draw, when the draw has at least as many values as there are documents |
| `ErrorMessages.Split` | src/utils/errorMessages.ts:25 | `split` yields at least one piece, and no piece contains the separator |
| `ErrorMessages.JoinSplit` | src/utils/errorMessages.ts:25 | joining the pieces with the separator gives back the original string |
| `ErrorMessages.FirstPieceIsPrefix` | src/utils/errorMessages.ts:25 | `split(sep)[0]` is a prefix of the string; it is followed by the separator unless it is the whole string; it is the whole string when there is no separator |
| `ErrorMessages.GetRandomErrorMessage` | src/utils/errorMessages.ts:14-17 | the index is below 10, so the result is one of the ten messages |
| `ErrorMessages.Shorten` | src/utils/errorMessages.ts:25 | on desktop the message is unchanged; on mobile the text is a prefix with no `.`, cut exactly at the first `.`; a message without `.` is unchanged |
| `ErrorMessages.GetErrorMessage` | src/utils/errorMessages.ts:23-26 | desktop shows the chosen message; mobile shows a prefix of it with no `.`; either way a prefix of a listed message |
| `ErrorMessages.EllipsisMessageShownWhole` | src/utils/errorMessages.ts:6 | the fifth message uses `…`, not `.`, so it is shown whole at any width |
| `ErrorMessages.MobileNeverLonger` | src/utils/errorMessages.ts:23-25 | for the same draw, the mobile text is never longer than the desktop text |

## Left out

- The YouTube search request (server/src/services/youtube.ts:30-43): its query parameters have no behaviour to model. Its outcome is an input. A response without `items` throws inside the `try`, so it is represented as a failed search.
- ISO-8601 date parsing, `Math.random` and floating point: a parsed instant, a draw `k / d`, and the integer warning test `10 * n > 8 * 10000` take their place. Costs are whole numbers.
- `YouTube.FetchAndCacheVideos`: one `now` stamps every document inserted in a run. `fetchAndCacheVideos` reads `Date.now` per insert, through the schema default.
- `YouTube.ClearDatabase`: a failing `deleteMany` is modelled as removing nothing. Partial deletion is not modelled.
- Mongoose behaviour beyond `deleteMany` and the upsert is not modelled: schema validation of `required`, strict-mode handling (the stored record simply has no `publishedAt`), and the `fetchedAt` default beyond "set on insert".
- `setupMongooseMonitoring` and `getDatabaseStats` (server/src/utils/monitoring.ts:25-58): they register callbacks with, and query, a foreign library.
- `console` output is left out, except two logged values: the remaining quota (`Monitoring.QuotaRemaining`) and whether the 80% warning is logged (the `warned` result of `TrackYouTubeAPICall`). The percentage in the warning text is left out.
- Concurrency is left out: the gap between `countDocuments` and `findOne`, and the cron refresh running beside a startup refresh. Both reads of the route see the same documents.
- The route sees the collection as a sequence in natural order. `VideoRoutes.Lists` says that a sequence lists the keyed collection, each document once.
- JavaScript strings are UTF-16; Dafny strings are sequences of Unicode scalar values. `split('.')` cuts at the same place either way; lengths can differ for emoji.
- server/src/index.ts (server setup, database connection, cron schedule) and the React client components are not part of this model.
