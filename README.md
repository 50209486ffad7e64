# Location-to-notification pipeline of the WikipediaRest location service

This project models the background `LocationService` of the WikipediaRest
Android app. The service takes batches of location fixes and runs each fix
through a significant-change filter. The filter keeps one stored coordinate,
which starts at (0, 0), and accepts a fix only when its latitude or its
longitude differs from the stored one by strictly more than 0.01 degrees.

For every accepted fix, the service reverse-geocodes the coordinate and sends
at most one location notification:

- a notification naming the locality, when the geocoder found one;
- a coordinates-only notification, when the geocoder threw, returned an empty
  list, or returned an address without a locality;
- none at all, when the geocoder returned a null list.

For a locality, the service also fetches Wikipedia's "related pages" for
that name. It sends a second notification listing the related titles only
when the response has at least one page and every page has a title.

Each notification gets its id from a Kotlin `Int` counter that starts at 2
and is raised before every use. The model keeps the counter's 32-bit
wrap-around, so ids are 3, 4, ... and go on increasing up to `Int.MAX_VALUE`.
The next id after that is `Int.MIN_VALUE`.

Files:

- `optional.dfy`: `Option`, which stands for Kotlin's nullable types.
- `location_filter.dfy`: the threshold test, plus `Accepted`/`Stored`. These
  say what a whole batch does to the stored coordinate.
- `notifications.dfy`: messages, notices (a message with its `place_name`
  argument), notifications with ids, the 32-bit wrap of the counter, and how
  consecutive ids are handed out.
- `related_content.dfy`: the request URL, `joinToString(", ")` and its inverse
  `Split`, the loop that collects titles, and the notification the fetch sends.
- `place_resolution.dfy`: the branching of `getPlaceName` over the geocoder's
  outcome.
- `location_service.dfy`: class `LocationService`. It holds the fields
  `notificationCounter`, `lastLatitude`, `lastLongitude` and `posted`, the log
  of what the notification manager received. Its invariant `Valid` ties the
  counter to the number of notifications and fixes each notification's id by
  its position. Its methods say what they add to the log (`Sent`, the log
  without ids), proved against the functions above.

The geocoder and the HTTP endpoint are foreign calls, so they enter as
values. `Geocoding` is either a thrown exception or a possibly null list of
addresses with optional localities. `Response` is either a failure before a
`pages` array was obtained, or one optional title per page. In the batch
method they are functions: `geocoder: Coord -> Geocoding` and
`wiki: string -> Response`, where `wiki` takes the request URL.

The place name is not URL-encoded: the code only replaces every `' '` with
`'_'` (`LocationService.kt:144`). The model follows the code.

## Model

| member | source | states |
|---|---|---|
| `LocationFilter.Abs` | WikipediaRest/app/src/main/java/cr/ac/una/wikipedia/LocationService.kt:111-112 | the absolute difference is non-negative and is the difference or its negation |
| `LocationFilter.IsSignificant` | WikipediaRest/app/src/main/java/cr/ac/una/wikipedia/LocationService.kt:110-113 | a fix is significant iff it is not within 0.01 of the stored coordinate on both axes; a significant fix differs from the stored one |
| `LocationFilter.ThresholdIsExclusive` | WikipediaRest/app/src/main/java/cr/ac/una/wikipedia/LocationService.kt:110-113 | a move of exactly the threshold is rejected; one just above it is accepted |
| `LocationFilter.RepeatIsRejected` | WikipediaRest/app/src/main/java/cr/ac/una/wikipedia/LocationService.kt:110-120 | submitting a fix twice in a row accepts and stores no more than submitting it once |
| `LocationFilter.Accepted` | WikipediaRest/app/src/main/java/cr/ac/una/wikipedia/LocationService.kt:102-106 | the accepted fixes of a batch are no more than the batch and all come from it |
| `LocationFilter.Stored` | WikipediaRest/app/src/main/java/cr/ac/una/wikipedia/LocationService.kt:102-119 | the stored coordinate after a batch is the old one or a fix of the batch |
| `LocationFilter.AcceptedAppend` | WikipediaRest/app/src/main/java/cr/ac/una/wikipedia/LocationService.kt:102-106 | a batch is processed in order: each part sees the stored coordinate that the parts before it left |
| `LocationFilter.StoredIsLastAccepted` | WikipediaRest/app/src/main/java/cr/ac/una/wikipedia/LocationService.kt:113-119 | after a batch, the stored coordinate is the last accepted fix, or unchanged if none was accepted |
| `LocationFilter.AcceptedChain` | WikipediaRest/app/src/main/java/cr/ac/una/wikipedia/LocationService.kt:102-119 | each accepted fix is significant with respect to the fix accepted before it (the stored one for the first) |
| `LocationFilter.BatchWithinThresholdIgnored` | WikipediaRest/app/src/main/java/cr/ac/una/wikipedia/LocationService.kt:110-119 | a batch that stays within the threshold accepts nothing and leaves the stored coordinate as it was |
| `Notifications.WrapInt` | WikipediaRest/app/src/main/java/cr/ac/una/wikipedia/LocationService.kt:169 | the counter's `++` on a Kotlin `Int`: the result lies in the `Int` range and equals the raised value while that is in range |
| `Notifications.WrapSucc` | WikipediaRest/app/src/main/java/cr/ac/una/wikipedia/LocationService.kt:169 | raising the wrapped counter and wrapping again equals wrapping the count of raises, so the counter tracks the number of notifications |
| `Notifications.WrapCollision` | WikipediaRest/app/src/main/java/cr/ac/una/wikipedia/LocationService.kt:169 | two raise counts give the same `Int` only when they are a multiple of 2^32 apart |
| `Notifications.Stamp` | WikipediaRest/app/src/main/java/cr/ac/una/wikipedia/LocationService.kt:168-189 | each notice sent in order keeps its place and gets the id of its raise count, wrapped into `Int` |
| `Notifications.NumberedIsStamped` | WikipediaRest/app/src/main/java/cr/ac/una/wikipedia/LocationService.kt:168-189 | a log numbered from the first id is exactly its notices stamped with consecutive ids |
| `Notifications.StampAppend` | WikipediaRest/app/src/main/java/cr/ac/una/wikipedia/LocationService.kt:168-169 | notices sent one after another get consecutive ids across calls |
| `Notifications.IdsFreshAndIncreasing` | WikipediaRest/app/src/main/java/cr/ac/una/wikipedia/LocationService.kt:40 | ids numbered from 3 strictly increase while below `Int.MAX_VALUE`, and no two notifications fewer than 2^32 apart share an id |
| `Notifications.CounterWraps` | WikipediaRest/app/src/main/java/cr/ac/una/wikipedia/LocationService.kt:169 | the notification after the one with id `Int.MAX_VALUE` gets id `Int.MIN_VALUE` |
| `RelatedContent.ReplaceSpaces` | WikipediaRest/app/src/main/java/cr/ac/una/wikipedia/LocationService.kt:144 | length is kept; each space becomes `_`, every other character is unchanged; no space remains |
| `RelatedContent.RelatedUrl` | WikipediaRest/app/src/main/java/cr/ac/una/wikipedia/LocationService.kt:144 | the URL is the fixed prefix followed by the underscored place name; its suffix has no space |
| `RelatedContent.SameUrlIff` | WikipediaRest/app/src/main/java/cr/ac/una/wikipedia/LocationService.kt:144 | two place names share a URL iff they differ only where both hold a space or an underscore |
| `RelatedContent.ReplaceSpacesIdempotent` | WikipediaRest/app/src/main/java/cr/ac/una/wikipedia/LocationService.kt:144 | underscoring twice is underscoring once; a name without spaces is unchanged |
| `RelatedContent.SanJoseUrl` | WikipediaRest/app/src/main/java/cr/ac/una/wikipedia/LocationService.kt:144 | "San José" is fetched at `.../related/San_José` |
| `RelatedContent.Join` | WikipediaRest/app/src/main/java/cr/ac/una/wikipedia/LocationService.kt:159 | the body's list is empty for no titles; otherwise it starts with the first title and is as long as all titles plus one ", " between each two |
| `RelatedContent.SplitJoin` | WikipediaRest/app/src/main/java/cr/ac/una/wikipedia/LocationService.kt:159 | titles joined with ", " are recovered by splitting at ", " when no title has a comma |
| `RelatedContent.ThreeTitlesBody` | WikipediaRest/app/src/main/java/cr/ac/una/wikipedia/LocationService.kt:159 | the titles A, B, C give the body "Contenidos relacionados en Wikipedia: A, B, C" |
| `RelatedContent.CollectTitles` | WikipediaRest/app/src/main/java/cr/ac/una/wikipedia/LocationService.kt:152-157 | the loop yields the titles one per page in response order iff every page has a title, and fails otherwise |
| `RelatedContent.RelatedNotices` | WikipediaRest/app/src/main/java/cr/ac/una/wikipedia/LocationService.kt:147-164 | the fetch sends one notification iff there is at least one page and all pages have titles, else none; it carries the place name and the fixed body prefix |
| `RelatedContent.RelatedBodyListsTitles` | WikipediaRest/app/src/main/java/cr/ac/una/wikipedia/LocationService.kt:151-159 | the body of that notification lists the page titles in response order, one per page |
| `PlaceResolution.ResolvedCity` | WikipediaRest/app/src/main/java/cr/ac/una/wikipedia/LocationService.kt:127-128 | a city is resolved iff the list is non-null and non-empty and its first address has a locality, and it is that locality |
| `PlaceResolution.PlaceNotices` | WikipediaRest/app/src/main/java/cr/ac/una/wikipedia/LocationService.kt:122-141 | nothing is sent iff the list is null; at most two notices; a payload is present iff the notice is not coordinates-only, and it is the resolved city |
| `PlaceResolution.PlaceOutcomes` | WikipediaRest/app/src/main/java/cr/ac/una/wikipedia/LocationService.kt:122-141 | a city gives its notice then the fetch's; a null list gives nothing; an exception, an empty list or no locality give one coordinates-only notice |
| `PlaceResolution.FetchOnlyForResolvedCity` | WikipediaRest/app/src/main/java/cr/ac/una/wikipedia/LocationService.kt:127-132 | related content is sent only after a resolved city, and is what that city's URL yields |
| `Service.ReactionsToAppend` | WikipediaRest/app/src/main/java/cr/ac/una/wikipedia/LocationService.kt:102-106 | the notices of accepted fixes are the notices of each fix, concatenated in order |
| `Service.BatchStep` | WikipediaRest/app/src/main/java/cr/ac/una/wikipedia/LocationService.kt:102-106 | one more fix changes the stored coordinate and adds its place notices exactly when it is significant |
| `Service.BatchLoopStep` | WikipediaRest/app/src/main/java/cr/ac/una/wikipedia/LocationService.kt:102-106 | one more handled fix extends the stored coordinate and the sent notices to those of the longer batch prefix |
| `Service.ReactionsBound` | WikipediaRest/app/src/main/java/cr/ac/una/wikipedia/LocationService.kt:102-106 | at most two notices per accepted fix |
| `Service.BatchNoticesBound` | WikipediaRest/app/src/main/java/cr/ac/una/wikipedia/LocationService.kt:100-107 | a batch sends at most two notices per fix, and none when every fix is within the threshold |
| `Service.LocationService.constructor` | WikipediaRest/app/src/main/java/cr/ac/una/wikipedia/LocationService.kt:40-44 | the counter starts at 2, the stored coordinate at (0, 0), nothing is posted |
| `Service.LocationService.IsSignificantLocationChange` | WikipediaRest/app/src/main/java/cr/ac/una/wikipedia/LocationService.kt:110-120 | returns true iff either difference exceeds 0.01, and then stores the fix; otherwise nothing changes |
| `Service.LocationService.SendNotification` | WikipediaRest/app/src/main/java/cr/ac/una/wikipedia/LocationService.kt:168-190 | raises the `Int` counter by one with wrap-around and posts the notice under the new value, keeping ids numbered from 3 |
| `Service.LocationService.FetchRelatedWikipediaContent` | WikipediaRest/app/src/main/java/cr/ac/una/wikipedia/LocationService.kt:143-166 | sends exactly the notices of `RelatedNotices` for the response at the place's URL, under the next ids |
| `Service.LocationService.GetPlaceName` | WikipediaRest/app/src/main/java/cr/ac/una/wikipedia/LocationService.kt:122-141 | sends exactly the notices of `PlaceNotices` for the geocoder's outcome, under the next ids |
| `Service.LocationService.HandleLocation` | WikipediaRest/app/src/main/java/cr/ac/una/wikipedia/LocationService.kt:103-105 | filters one fix and, when it is accepted, sends its place notices; otherwise changes nothing |
| `Service.LocationService.OnLocationResult` | WikipediaRest/app/src/main/java/cr/ac/una/wikipedia/LocationService.kt:100-108 | the stored coordinate ends as the filter leaves it; the notices of the accepted fixes are sent in order under consecutive ids |

## Left out

- Android lifecycle, the notification channel, the foreground "Service running" notification, and the `Intent`/`PendingIntent` of each notification (`LocationService.kt:46-73`, `171-187`). These are platform calls. A notification is modelled as its id, its message and its `place_name` argument, added to `posted`.
- The payload of a notice is the `placeName` argument passed to `sendNotification`. It is not what tapping the notification delivers. Every notification shares one `PendingIntent` (request code 0 with `FLAG_UPDATE_CURRENT`, `LocationService.kt:174-179`), so a tap on any of them delivers the most recent `place_name`. The model does not capture this.
- Permission checks, the location request settings and `FusedLocationProviderClient` (`LocationService.kt:76-98`). A batch of fixes is simply the input of `OnLocationResult`.
- `Geocoder.getFromLocation`, `URL.readText` and `JSONObject`. These are foreign calls, and their outcomes are the input values `Geocoding` and `Response`. The geocoder is a fixed function of the coordinate, and the endpoint a fixed function of the URL.
- The executor hand-off of the fetch (`LocationService.kt:145`). The fetch is modelled as a synchronous step inside `GetPlaceName`. So the model does not capture that a related-content notification may be posted after later location notifications. It also does not capture that `contNotificacion++` on the worker thread races with the main thread and can reuse an id.
- Service.LocationService.GetPlaceName: assumes `sendNotification` never throws. In the source, a throw from the notification manager inside the `try` would lead to a second coordinates-only notification from the `catch`.
- IEEE-754 doubles. Coordinates are reals, and the threshold is exactly 1/100, so rounding of `Double` differences at the boundary is not modelled.
- The text of the two location messages, which embeds formatted doubles (`LocationService.kt:129`, `134`, `139`). Each one is a `Message` constructor carrying the city and the coordinates.
- The `notifiedPlaces` set (`LocationService.kt:41`). It is never read or written.
- `Places.initialize` and its API key (`LocationService.kt:49`).
- `ArticleFragment.kt` (a web view that loads a URL) and `WikipediaArticle.kt` (a data class with no behaviour). They have no logic to model.
