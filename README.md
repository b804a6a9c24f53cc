# lastfm-edit, modelled in Dafny

A model of the core of **lastfm-edit**:

- a client library that edits and deletes a user's Last.fm scrobbles through the website;
- the `lastfm-edit` command-line tool built on it, with its older command set;
- the **scrobble-scrubber** daemon, which applies rewrite rules to newly scrobbled tracks.

Behind the HTTP, HTML and async layers the system is made of sequential cores, and each is modelled in the form the source gives it.

Imperative code is modelled as classes and methods proved against specification functions:

- the paginated iterators and the scrobble-discovery strategies;
- the retry loop with exponential backoff;
- the cookie jar update;
- the command handlers' selection and counting loops;
- the terminal editor's key handling;
- the scrubber's collection and processing cycle;
- the scrubber's state stores.

Pure code is modelled as functions with lemmas:

- the edit builders, the form data and the edit-response summaries;
- the request and URL splitting, and the session validity check;
- the page-text parsers, and the record/replay request matcher and form codec;
- the edit-success decision, the rules and "or" action providers, and the suggestion handling of the OpenAI provider.

Collaborators are parameters:

- a page fetch is a function from page number to `Result`;
- the k-th call to the server is the k-th element of an outcome function;
- variation loading is a function from track name to `Result`;
- the rewrite-rule engine is a datatype of total functions.

HTML documents and JSON payloads are given already extracted or decoded. The current time is a parameter.

Each module lives in its own file; `wrappers.dfy`, `types.dfy`, `text.dfy` and `seqs.dfy` hold the shared types and the string helpers.

## Model

| member | source | states |
|---|---|---|
| LastFmTypes.ErrorMessage | src/types.rs:796-856 | the display text of each of the seven error kinds: its fixed prefix and detail, the fixed CSRF text, and the retry delay in decimal seconds |
| LastFmTypes.ErrorMessageInjective | src/types.rs:796-856 | different errors never display the same text: the text gives back the kind, the detail and the retry delay |
| ScrobbleEdits.FromTrackInfo | src/types.rs:382-400 | every new value equals its original; the given names and timestamp are the originals; not edit-all |
| ScrobbleEdits.WithTrackName | src/types.rs:403-406 | sets the new track name and changes no other field |
| ScrobbleEdits.WithAlbumName | src/types.rs:409-412 | sets the new album name and changes no other field |
| ScrobbleEdits.WithArtistName | src/types.rs:417-421 | sets the new artist and the new album artist to the same name; nothing else changes |
| ScrobbleEdits.WithEditAll | src/types.rs:427-430 | sets the edit-all flag and changes no other field |
| ScrobbleEdits.WithMinimalInfo | src/types.rs:443-461 | a single-scrobble edit whose new values equal its originals |
| ScrobbleEdits.FromTrackAndArtist | src/types.rs:472-485 | track and artist pinned and kept; album fields and timestamp left for lookup; album artist defaults to the artist |
| ScrobbleEdits.ForArtist | src/types.rs:496-509 | edit-all rename of an artist, pinning no track or album, album artist follows the new artist |
| ScrobbleEdits.ForAlbum | src/types.rs:521-534 | edit-all move of one album to a new artist, keeping the album name and leaving the album artist unset |
| ScrobbleEdits.ToScrobbleEdit | src/types.rs:605-618 | every field of the exact edit becomes present with the same value |
| ScrobbleEdits.Overlay | src/discovery/exact_match.rs:70-81 | originals and timestamp kept; artist and edit-all copied from the request; track, album and album artist replaced only when requested |
| ScrobbleEdits.OverlayIdempotent | src/discovery/exact_match.rs:70-81 | overlaying a request twice is overlaying it once |
| ScrobbleEdits.OverlayOwnRequest | src/discovery/exact_match.rs:70-81 | overlaying the full request made from an exact edit with the same originals gives back that exact edit |
| ScrobbleEdits.FieldNameInjective | src/types.rs:570-600 | distinct form fields are posted under distinct keys |
| ScrobbleEdits.BuildFormData | src/types.rs:570-600 | the form holds every field and `edit_all` exactly when asked; each key carries its field's value, the timestamp in decimal, and the fixed submit and ajax values |
| EditResponses.Single | src/types.rs:623-637 | a response of exactly one result, all-successful exactly when that result succeeded |
| EditResponses.CountSuccessful | src/types.rs:662-664 | the success count never exceeds the number of results |
| EditResponses.CountsAddUp | src/types.rs:662-672 | every result is counted as a success or as a failure |
| EditResponses.CountSuccessfulAll | src/types.rs:662-664 | the success count equals the length exactly when every result succeeded |
| EditResponses.CountSuccessfulNone | src/types.rs:662-664 | the success count is zero exactly when no result succeeded |
| EditResponses.EditCountsAddUp | src/types.rs:657-672 | successful plus failed edits equal the total |
| EditResponses.AllSuccessfulIffCounts | src/types.rs:640-672 | `success` is `all_successful`, which holds exactly when there are results and none failed |
| EditResponses.AnySuccessfulIffCount | src/types.rs:652-664 | some result succeeded exactly when the success count is positive |
| EditResponses.SummaryMessageEmpty | src/types.rs:675-699 | the "no edit operations performed" summary appears exactly when there are no results |
| EditResponses.SummaryMessageCases | src/types.rs:675-699 | the summary for all succeeded, none succeeded (one or several) and a mixed outcome with both counts |
| EditResponses.Message | src/types.rs:739-741 | the message is always present and is the summary |
| EditResponses.DetailedMessages | src/types.rs:702-725 | one line per result, in result order, with that result's message, or `Success`/`Failed` when it has none, and its album information |
| EditResponses.DetailedMessageNumber | src/types.rs:702-725 | the text before a line's first `:` is a decimal number that reads back as the line's position counted from 1 |
| EditResponses.DetailedMessageOutcome | src/types.rs:702-725 | a line shows its result's message when there is one; otherwise it says `Success` exactly when the result succeeded and `Failed` exactly when it did not, with the album information after it |
| EditResponses.DetailedMessagesDistinct | src/types.rs:702-725 | no two results give the same line |
| ClientConfigs.WithRetries | src/types.rs:1137-1143 | the given retry count with the default delays, enabled exactly when the count is positive |
| ClientConfigs.WithDelays | src/types.rs:1146-1152 | the default policy with the given base and maximum delays and nothing else changed |
| ClientConfigs.CustomPatternsOnly | src/types.rs:995-1002 | both built-in detections off, no built-in patterns, only the given patterns |
| ClientConfigs.WithCustomPatterns | src/types.rs:1005-1008 | replaces the custom patterns and nothing else |
| ClientConfigs.WithPatterns | src/types.rs:1011-1014 | replaces the built-in patterns and nothing else |
| ClientConfigs.WithRetryConfig | src/types.rs:1057-1060 | replaces the retry policy, keeps the rate-limit detection |
| ClientConfigs.WithRateLimitConfig | src/types.rs:1063-1066 | replaces the rate-limit detection, keeps the retry policy |
| ClientConfigs.WithMaxRetries | src/types.rs:1069-1073 | sets the retry count, enabled exactly when positive; delays and detection kept |
| ClientConfigs.WithRetryDelays | src/types.rs:1076-1080 | changes the two delays only |
| ClientConfigs.WithCustomRateLimitPatterns | src/types.rs:1083-1086 | changes the custom patterns only |
| ClientConfigs.WithStatusDetection | src/types.rs:1089-1092 | switches status-code detection only |
| ClientConfigs.WithPatternDetection | src/types.rs:1095-1098 | switches pattern detection only |
| ClientConfigs.MaxRetriesAgreesWithRetries | src/types.rs:1069-1073 | setting a count on the default client gives the policy `RetryConfig::with_retries` gives; zero disables retrying |
| Sessions.NewSession | src/session.rs:21-33 | the session stores its four arguments as given |
| Sessions.IsValid | src/session.rs:39-47 | a valid session has a user name, cookies, a CSRF token and a `sessionid` cookie longer than 50 bytes in UTF-8 |
| Sessions.ValidWithSessionCookie | src/types.rs:898-906 | a user name, a CSRF token and a long `sessionid` cookie anywhere in the jar make a session valid |
| Sessions.MoreCookiesStayValid | src/session.rs:39-47 | adding cookies never invalidates a valid session |
| Sessions.ShortSessionCookieInvalid | src/session.rs:39-47 | without a cookie longer than 50 bytes in UTF-8 a session is invalid |
| Sessions.ExampleSessions | src/session.rs:64-84 | the valid and invalid sessions of the source's validity test are judged as the test expects |
| RequestInfos.ParsePair | src/types.rs:1193-1203 | an empty piece is dropped; a piece splits at its first `=`; a piece without `=` is a key with an empty value |
| RequestInfos.ParsePairs | src/types.rs:1191-1204 | at most one parameter per piece |
| RequestInfos.ParseRenderedPair | src/types.rs:1193-1203 | a rendered pair whose key has no `=` parses back to itself |
| RequestInfos.ParseRenderedPairs | src/types.rs:1191-1204 | rendered pairs parse back to the same parameters in order |
| RequestInfos.QueryRoundTrip | src/types.rs:1187-1204 | parsing a rendered query gives back its parameters, in order |
| RequestInfos.StripOrigin | src/types.rs:1211-1220 | intended path extraction: a non-URL is kept as is; a URL gives a path starting with `/` |
| RequestInfos.StripOriginOfUrl | src/types.rs:1211-1220 | for `http://` and `https://` URLs only the path after the host is kept, `/` when there is none |
| RequestInfos.PathAsWritten | src/types.rs:1212-1214 | the extraction as written fails exactly on an `http://` URL where byte 8 lies past the end or inside a character: nothing follows the scheme, or the next character takes more than one UTF-8 byte |
| RequestInfos.PathAsWrittenSplitsChar | src/types.rs:1212-1214 | `http://é/x` makes the byte slice split `é`, a panic, where the intended extraction gives `/x` |
| RequestInfos.PathAsWrittenAgrees | src/types.rs:1212-1217 | with a non-empty host, which for `http://` starts with a one-byte character, the extraction as written agrees with the intended one |
| RequestInfos.PathAsWrittenEmptyHost | src/types.rs:1212-1214 | with an empty host the extraction as written panics on `http://` and loses the path of `http:///x` |
| RequestInfos.FromUrlAndMethod | src/types.rs:1185-1228 | method and URI kept; a URL without `?` has no parameters and its stripped path |
| RequestInfos.FromUrlRoundTrip | src/types.rs:1185-1228 | a path and a rendered query are split back into that path and those parameters |
| RequestInfos.ShortDescription | src/types.rs:1231-1246 | method and path, then all parameters when at most two, otherwise the first followed by `...`; what this means for a request parsed from a URL is stated by `ShortDescriptionOfShortUrl` and `ShortDescriptionOfLongUrl` |
| RequestInfos.ShortDescriptionOfShortUrl | src/types.rs:1231-1246 | a request with one or two parameters is described by its method and its own path and query |
| RequestInfos.ShortDescriptionOfLongUrl | src/types.rs:1231-1246 | a request with more than two plain parameters is described by its method, its own path and its query up to the first `&`, then `...` |
| RequestInfos.FirstParamOfQuery | src/types.rs:1234-1238 | the first `&` of a rendered query of plain parameters comes right after the first `key=value` pair |
| Consumption.PrependOne | src/iterator.rs:31-37 | a gathered list starts with the item of the first call exactly when the rest is what the later calls gather |
| Consumption.Taken | src/iterator.rs:47-56 | `take(n)` never gathers more than `n` items |
| Consumption.TakeCalls | src/iterator.rs:47-56 | `take(n)` makes at most `n` calls |
| Consumption.CollectAll | src/iterator.rs:31-37 | `collect_all` gathers every item up to the first `None`, in order, or passes on the first error |
| Consumption.Take | src/iterator.rs:47-56 | `take(n)` gathers what at most `n` calls yield, stopping at the first `None` or error; zero allowed calls make none |
| Consumption.CollectedExactly | src/iterator.rs:31-37 | `collect_all` gives `items` exactly when the calls yield those items one by one and then `None` |
| Consumption.YieldsShift | src/iterator.rs:31-37 | yielding a list is yielding its head and then its tail |
| Consumption.CollectedError | src/iterator.rs:31-37 | an error of `collect_all` is the first error, preceded only by items |
| Consumption.TakenIsPrefix | src/iterator.rs:47-56 | where `collect_all` succeeds, `take(n)` gathers its first `min(n, m)` items |
| Consumption.TakeEnough | src/iterator.rs:47-56 | with enough calls allowed, `take(n)` gathers what `collect_all` gathers |
| Consumption.TakenAgrees | src/discovery/discovery_iterator.rs:22-44 | the discovery iterators' `take` and `collect_all` agree once the calls are exhausted |
| Iterators.Reversed | src/iterator.rs:210-213 | the reversed page holds the same items back to front |
| Iterators.ReversedPop | src/iterator.rs:207-222 | reversing a page into the buffer and popping yields the page's first item and leaves the rest in order |
| Iterators.WeightReversed | src/iterator.rs:210-213 | reversing a page does not change the work it leads to |
| Iterators.FetchShrinks | src/iterator.rs:252-274 | a successful fetch leaves less work than there was before it |
| Iterators.PagedIterator.constructor | src/iterator.rs:237-247 | a new iterator starts at page 1 with an empty buffer and more pages expected |
| Iterators.PagedIterator.WithStartingPage | src/iterator.rs:606-616 | starts at the given page, never before page 1 |
| Iterators.PagedIterator.CurrentPage | src/iterator.rs:224-226 | the current page is the last page fetched |
| Iterators.PagedIterator.NextPage | src/iterator.rs:252-274 | no fetch once there is no next page; a failed fetch changes nothing; a fetched page advances the page, sets the total and whether more follow |
| Iterators.PagedIterator.Next | src/iterator.rs:207-222 | a buffered item comes first; otherwise the next page is fetched and its items come out in the page's order; an empty page makes that call return `None`, while whether more pages follow is kept as that page reported it; each item yielded decreases the work left; what the calls still yield is the listing from the current page on, with the item yielded taken off its front |
| Iterators.PagesFromFetched | src/iterator.rs:207-222 | the listing from a fetched page is that page's items followed by the listing from the next page when the page says one follows, and nothing for an empty page |
| Iterators.PagedIterator.BufferFetched | src/iterator.rs:209-214 | a fetched page's items become the pending ones in the page's order, an empty page stops the call with `None`, and the listing is unchanged |
| Iterators.PagedIterator.FillBuffer | src/iterator.rs:209-214 | on an empty buffer the next page is fetched and its items become what is still to come; the end of the pages, an empty page or a failed fetch stop the call, a failure with nothing changed, and a stop happens only where the listing still to come is empty or that failure |
| Iterators.PagedIterator.Pop | src/iterator.rs:207-222 | the popped item is the first pending one and the rest stay pending in order; the listing still to come loses exactly that item |
| Iterators.BeforeStop | src/iterator.rs:384-408 | the kept tracks are a prefix with no track at or before the stop timestamp, cut at the first one that is |
| Iterators.BeforeStopUnique | src/iterator.rs:384-408 | any prefix without a stopping track followed by a stopping track or the end is exactly what is kept |
| Iterators.BeforeStopKeepsUntimed | src/iterator.rs:384-408 | tracks without a timestamp never stop the iteration |
| Iterators.BeforeStopAll | src/iterator.rs:384-408 | everything is kept exactly when no track reaches the stop timestamp |
| Iterators.RecentTracksIterator.constructor | src/iterator.rs:430-432 | a new iterator starts at page 1 without a stop timestamp |
| Iterators.RecentTracksIterator.WithStartingPage | src/iterator.rs:443-452 | starts at the given page, never before page 1 |
| Iterators.RecentTracksIterator.WithStopTimestamp | src/iterator.rs:463-466 | sets the stop timestamp and nothing else |
| Iterators.RecentTracksIterator.CurrentPage | src/iterator.rs:421-423 | the current page is the last page fetched |
| Iterators.RecentTracksIterator.Next | src/iterator.rs:378-419 | buffered tracks first; a fetched page yields only the tracks before the stop timestamp, in order, and a page that reaches it or has no next page ends the iteration |
| Iterators.RecentTracksIterator.Refill | src/iterator.rs:384-415 | a failed fetch changes nothing; an empty page ends the iteration; otherwise the kept tracks are buffered and the page advances |
| Iterators.RecentTracksIterator.BufferPage | src/iterator.rs:394-415 | a non-empty page buffers its tracks up to the first at or before the stop timestamp, in the order they will be yielded; more pages are expected only when the page says so and the stop was not reached; the page number advances |
| Iterators.RecentTracksIterator.Pop | src/iterator.rs:378-383 | the popped track is the first pending one and the rest stay pending in order |
| Iterators.KeepBeforeStop | src/iterator.rs:392-406 | the scan keeps exactly the tracks before the first one at or before the stop, and reports whether there was one |
| Iterators.KeptShrinks | src/iterator.rs:384-415 | buffering the kept tracks of a fetched page leaves less work than before the fetch |
| Iterators.AlbumTracksIterator.constructor | src/iterator.rs:540-548 | a new album iterator has loaded nothing and yielded nothing |
| Iterators.AlbumTracksIterator.Next | src/iterator.rs:484-528 | the album page is fetched at most once (a failed fetch is returned and retried later) and its tracks come out by increasing index, then `None` |
| Iterators.AlbumTracksIterator.CollectAll | src/iterator.rs:31-37 | collecting gives the tracks not yet yielded, or the fetch error |
| Iterators.TracksOfListingFront | src/iterator.rs:99-148 | the first album of a listing yields its tracks (or its page's error) before the albums after it |
| Iterators.ArtistTracksIterator.constructor | src/iterator.rs:176-185 | a new iterator has opened neither the album listing nor an album, and its calls will yield every track of every album of the listing in order, or the first error |
| Iterators.ArtistTracksIterator.Next | src/iterator.rs:92-151 | once finished always `None`; `None` only when finished; each track yielded is the current album's last track and decreases the work left; the track yielded is the first of those still to come, `None` comes only when none are left, and an error only where it is the next thing to come |
| Iterators.ArtistTracksIterator.Advance | src/iterator.rs:99-148 | the loop of `next` leaves what is still to come unchanged until it buffers a track; it stops with `None` only when nothing is left and with an error only where that error comes next |
| Iterators.ArtistTracksIterator.PopTrack | src/iterator.rs:134-140 | the buffered track is the first of those still to come and is taken off their front |
| Iterators.ArtistTracksIterator.Step | src/iterator.rs:99-148 | one round of the loop: an exhausted album is dropped, an error is passed on without finishing, and the work left decreases; a round that goes on leaves what is still to come unchanged |
| Iterators.ArtistTracksIterator.PullTrack | src/iterator.rs:134-146 | the current album yields one track into the buffer, or is dropped when exhausted; an error is passed on; the work left decreases; what is still to come is unchanged, an error being the first of it |
| Iterators.ArtistTracksIterator.OpenNextAlbum | src/iterator.rs:101-125 | opens the next album of the listing; the end of the listing finishes the iteration, an error does not; opening leaves what is still to come unchanged |
| Iterators.ArtistTracksIterator.TakeAlbum | src/iterator.rs:101-125 | the album the listing yields becomes the current album, whose tracks now come before the albums after it; the end of the listing or its error is what the calls still had to give |
| DiscoveryCommon.KeepAlbumArtist | src/discovery/common.rs:8-34 | keeps exactly the edits whose original album artist is the target |
| DiscoveryCommon.FilterByOriginalAlbumArtist | src/discovery/common.rs:8-34 | without an original album artist in the request the list is kept as is; with one, exactly the edits that have it are kept |
| DiscoveryCommon.FilterIsSubsequence | src/discovery/common.rs:8-34 | filtering keeps the edits in their original order |
| DiscoveryCommon.FilterAppend | src/discovery/common.rs:8-34 | filtering a concatenation filters each part |
| DiscoveryCommon.FilterIdempotent | src/discovery/common.rs:8-34 | filtering twice is filtering once |
| DiscoveryCommon.OverlayAll | src/discovery/album_tracks.rs:68-83 | one overlaid edit per loaded variation |
| DiscoveryCommon.OverlayEach | src/discovery/album_tracks.rs:68-83 | the copy-modify-push loop gives each loaded variation with the request overlaid, in order |
| DiscoveryCommon.CandidatesShaped | src/discovery/album_tracks.rs:66-93 | every candidate is a loaded variation with the request overlaid, and shows the requested values and album artist |
| DiscoveryCommon.CandidatesFilterFirst | src/discovery/exact_match.rs:62-81 | filtering before the overlay (as exact match does) gives the same edits as filtering after it |
| DiscoveryCommon.LoadCandidates | src/discovery/album_tracks.rs:61-103 | a track's candidates, or none when loading its variations fails |
| DiscoveryCommon.CandidatesForShaped | src/discovery/album_tracks.rs:61-103 | a track's candidates come from its successfully loaded variations and show the request |
| DiscoveryCommon.EditsOfTracksShaped | src/discovery/album_tracks.rs:52-104 | every edit found over a list of tracks shows the request and comes from one track's loaded variations |
| Discovery.ChooseStrategy | src/client.rs:1327-1360 | the strategy by which of track and album the request names, each case exactly; the strategy carries the named track and album |
| Discovery.DiscoverScrobbleEditVariations | src/trait.rs:313-320 | every edit found shows the request; per strategy, the found edits are the strategy's candidates or its error: the one exact match the lookup finds (or its error, including not found), the track's or the album's candidates, or every candidate of the artist's tracks |
| ExactMatch.FindOnAlbum | src/discovery/exact_match.rs:65-67 | the first variation on the album, absent exactly when no variation is on it |
| ExactMatch.LookupFound | src/discovery/exact_match.rs:41-113 | a failed load is passed on; a found edit is a filtered variation on the album with the request overlaid; the not-found error arises exactly when there is none |
| ExactMatch.ExactMatchDiscovery.constructor | src/discovery/exact_match.rs:22-36 | a new discovery has not looked yet |
| ExactMatch.ExactMatchDiscovery.Next | src/discovery/exact_match.rs:41-113 | the first call gives the lookup's edit or error; every later call gives `None` |
| ExactMatch.ExactMatchDiscovery.CollectAll | src/discovery/discovery_iterator.rs:22-28 | collecting gives the one found edit or the lookup's error; nothing once completed |
| TrackVariations.TrackVariationsDiscovery.constructor | src/discovery/track_variations.rs:22-31 | a new discovery has loaded nothing, and will yield the candidates of the track's variations |
| TrackVariations.TrackVariationsDiscovery.Next | src/discovery/track_variations.rs:36-102 | the variations are loaded at most once; buffered candidates come out in order; a failed first load is returned and ends the iteration |
| TrackVariations.TrackVariationsDiscovery.CollectAll | src/discovery/discovery_iterator.rs:22-28 | collecting gives every candidate still to come, or the load's error |
| TrackVariations.DiscoverAll | src/discovery/track_variations.rs:36-102 | a fresh discovery collects exactly the track's candidates, or the load's error |
| AlbumTracks.AlbumTracksDiscovery.constructor | src/discovery/album_tracks.rs:23-38 | a new discovery will yield the candidates of the album's tracks, track by track |
| AlbumTracks.AlbumTracksDiscovery.Next | src/discovery/album_tracks.rs:43-108 | the current track's candidates first, then the next tracks until one has candidates; a track whose load fails is skipped; only the album listing's error is returned |
| AlbumTracks.AlbumTracksDiscovery.TakeCurrent | src/discovery/album_tracks.rs:45-49 | the next buffered candidate is returned and removed from what is still to come |
| AlbumTracks.AlbumTracksDiscovery.NextFromTracks | src/discovery/album_tracks.rs:52-107 | the loop over the album's tracks yields the next candidate still to come, `None` at the end, or the listing's error |
| AlbumTracks.AlbumTracksDiscovery.TakeCandidates | src/discovery/album_tracks.rs:61-103 | a track with candidates makes them the current results and yields the first; one without changes nothing |
| AlbumTracks.AlbumTracksDiscovery.CollectAll | src/discovery/discovery_iterator.rs:22-28 | collecting gives everything still to come, or the album listing's error |
| AlbumTracks.DiscoverAll | src/discovery/album_tracks.rs:43-108 | a fresh discovery collects the candidates of the album's tracks in track order, or the listing's error |
| ArtistTracks.ArtistTracksDiscovery.constructor | src/discovery/artist_tracks.rs:22-33 | a new discovery holds no results and has opened nothing; its calls will yield every candidate of the artist's tracks in order, or the first error |
| ArtistTracks.ArtistTracksDiscovery.Next | src/discovery/artist_tracks.rs:38-96 | the current track's candidates first, then the artist's next tracks until one has candidates; `None` only when the artist's tracks are exhausted; each edit yielded is the first still to come, and an error only where it comes next |
| ArtistTracks.ArtistTracksDiscovery.NextFromTracks | src/discovery/artist_tracks.rs:47-95 | the loop over the artist's tracks yields the first candidate of the next track that has one, and the work left decreases; the edit yielded is the first still to come |
| ArtistTracks.ArtistTracksDiscovery.Step | src/discovery/artist_tracks.rs:47-93 | one track of the loop: the work left decreases, and the loop ends on a candidate (the first still to come), the end of the tracks (nothing left) or an error (the next thing to come); a track without candidates leaves what is still to come unchanged |
| ArtistTracks.ArtistTracksDiscovery.TakeCandidates | src/discovery/artist_tracks.rs:54-91 | a track with candidates makes them the current results and yields the first; one without changes nothing; either way the track's candidates come before those of the tracks after it |
| ArtistTracks.EditsOfListingFront | src/discovery/artist_tracks.rs:47-93 | the first track of a listing contributes its candidates before those of the tracks after it |
| ArtistTracks.ArtistTracksDiscovery.CollectAll | src/discovery/discovery_iterator.rs:22-28 | collecting gives exactly what the calls of `next` still yield: the candidates of the remaining tracks in order, or the first error; a successful collection has read the artist's tracks to the end and every edit shows the request |
| ArtistTracks.DiscoverAll | src/discovery/artist_tracks.rs:38-96 | a fresh discovery collects the candidates of every track of every album of the artist, album by album in listing order, or the first error of the album listing or an album's page; every edit shows the request |
| Retry.DelayBounds | src/retry.rs:101-106 | the wait is the least of the backoff on top of `retry_after`, the maximum delay and the legacy 30-seconds-per-retry bound, and is one of them |
| Retry.FirstDelay | src/retry.rs:101-106 | the first wait is the server's `retry_after`, capped by the maximum delay |
| Retry.DelayNondecreasing | src/retry.rs:101-106 | later retries never wait less for the same `retry_after` |
| Retry.DelayAtLeastRetryAfter | src/retry.rs:101-106 | when the maximum delay allows it, the server's `retry_after` is always waited |
| Retry.WaitEvents | src/retry.rs:109-121 | one rate-limit event per wait |
| Retry.RunOk | src/retry.rs:50-136 | a success is the first call that succeeded, after only rate-limited calls whose waits were not cancelled; the total retry time is the sum of the waits; events are the waits then one end-of-rate-limit event; never past `max_retries` |
| Retry.RunErr | src/retry.rs:50-136 | a failure is another error passed on unchanged, a rate limit with retries disabled or exhausted, or a cancelled wait |
| Retry.CallsBound | src/retry.rs:50-136 | the operation runs at least once, once only when retrying is disabled, and at most `max_retries + 1` times |
| Retry.RunFirstNotRateLimited | src/retry.rs:50-136 | without cancellation, the first call within budget that is not rate limited decides the outcome |
| Retry.RunExhausted | src/retry.rs:50-136 | without cancellation, rate limits on every call up to `max_retries` return the last rate limit |
| Retry.RetryWithBackoffCancelable | src/retry.rs:50-136 | the loop gives the outcome and the rate-limit events of the run |
| Retry.RetryWithBackoff | src/retry.rs:22-44 | the same run without cancellation; it reports a cancellation only when the operation itself returned one |
| Retry.RetryOperation | src/retry.rs:139-162 | the same run, its value or error only |
| Login.BeforeFirst | src/login.rs:238-252 | the text before the first separator is a prefix of the text, free of the separator, and followed by it when shorter |
| Login.Without | src/login.rs:238-252 | `retain` keeps exactly the cookies without the prefix, in their order |
| Login.WithoutIsSubsequence | src/login.rs:238-252 | the kept cookies stay in their relative order |
| Login.Absorb | src/login.rs:238-252 | a `Set-Cookie` value drops every cookie of the same name and adds its `name=value` pair last |
| Login.ExtractCookiesFromResponse | src/login.rs:238-252 | no `Set-Cookie` header leaves the jar unchanged; otherwise every value is taken in header order |
| Login.PrefixDeterminesName | src/login.rs:238-252 | a cookie starting with `m=` has the name `m` |
| Login.OtherNamesSurvive | src/login.rs:238-252 | a cookie whose name no header uses is never dropped |
| Login.NoNewCookieOfName | src/login.rs:238-252 | headers of other names add no cookie of a given name |
| Login.OutsideNamesWithout | src/login.rs:244-248 | dropping the cookies of one of the given names leaves the cookies of other names as they were, in order |
| Login.OtherNamesKeepOrder | src/login.rs:238-252 | the cookies of names no header uses stay exactly as they were, in their order: the jar after the headers, cut down to those names, is the old jar cut down the same way |
| Login.NewestCookieWins | src/login.rs:238-252 | the last header of a name wins: its pair is the only cookie of that name in the jar |
| Login.LastHeaderLast | src/login.rs:238-252 | the last header's pair is the last cookie |
| Login.ErrorLines | src/login.rs:208-226 | every error line is a trimmed, non-empty error text of the page |
| Login.LoginErrorMessage | src/login.rs:208-226 | the error texts joined by `; ` after `Login failed: `, or a general hint when there are none |
| Login.LoginOutcomeCases | src/login.rs:113-166 | login succeeds exactly on 200 with a real session cookie or no login form left, or on 302 with a real session cookie; a success carries the new jar; a failure is the parsed login error |
| Login.RealSessionIsValid | src/login.rs:129-142 | a successful login with a real session cookie and a user name yields a valid session |
| HttpRules.IsRateLimitResponse | src/client.rs:1219-1230 | a body is a rate limit exactly when it contains some pattern, ignoring ASCII case |
| HttpRules.EmptyPatternMatchesAll | src/client.rs:1219-1230 | an empty pattern makes every body a rate limit |
| HttpRules.PatternCaseIgnored | src/client.rs:1219-1230 | the body's case does not matter |
| HttpRules.ParentPathIsPrefix | src/client.rs:1162-1169 | the parent path is the URL up to its last `/`, or empty without one |
| HttpRules.ResolveLocation | src/client.rs:1155-1171 | a location starting with `/` is put on the base URL; one starting with `http` is used as it is |
| HttpRules.ResolveRelative | src/client.rs:1160-1171 | any other location replaces the last path segment of the current URL |
| HttpRules.RetryAfterSeconds | src/client.rs:1183-1195 | the first `Retry-After` value as a number, or 60 |
| HttpRules.RequestsBounded | src/client.rs:1090-1216 | one GET sends at most six requests: the first and five redirects |
| HttpRules.EndlessRedirectsFail | src/client.rs:1090-1093 | endless redirects end in the "Too many redirects" error |
| HttpRules.ReturnedResponse | src/client.rs:1137-1216 | a returned response is never a followed redirect nor a 429; a 403 is returned only with an empty jar; every rate limit reported comes from a 429 with its `Retry-After` or a 403 with 60 seconds |
| EditForms.TakeRow | src/client.rs:879-955 | one row of the loop gives that row's edit, if any, and the seen set after it |
| EditForms.ExtractScrobbleEditsFromPage | src/client.rs:869-960 | a page without a scrobble table is a parse error and marks nothing seen; otherwise the rows' edits in order and the grown seen set |
| EditForms.FreshKeysAppend | src/client.rs:869-960 | edits with fresh variations followed by edits fresh after them together have fresh variations |
| EditForms.ExtractRowsFacts | src/client.rs:879-955 | every edit is for the expected track and artist with unchanged values for all scrobbles; no variation is repeated or taken from the seen set; the seen set only grows |
| EditForms.VariationConsumedWithoutTimestamp | src/client.rs:920-950 | a matching form whose timestamp does not parse still marks its variation as seen and yields nothing |
| EditForms.LoadEditFormValues | src/client.rs:746-865 | the loop over at most five library pages gives the edits of all pages, or an error when there are none |
| EditForms.FormValuesOfError | src/client.rs:746-865 | an error met on a later page is the outcome of the whole load |
| EditForms.PagesFromFacts | src/client.rs:780-850 | edits from the pages carry distinct variations, even across pages |
| EditForms.FormValuesFacts | src/client.rs:746-865 | loaded form values are never empty, are all for the track and artist, and never repeat an album variation |
| EditForms.PagesFromBounded | src/client.rs:780-801 | only pages 1 to 5 are looked at: two sites that agree on them give the same edits |
| EditForms.FormValuesBounded | src/client.rs:780-801 | the load's outcome depends on pages 1 to 5 only |
| EditForms.FindRecentScrobbleForTrack | src/client.rs:449-476 | pages 1 to `max_pages` scanned in order; the first scrobble of the track by the artist is returned |
| RecentSearch.RecentTracksPage | src/trait.rs:288-297 | a fetch error is passed on; the page holds the scrobbles, claims a next page exactly when not empty, and has no total |
| RecentSearch.FirstWhere | src/trait.rs:329-356 | the first scrobble passing the test, absent exactly when none does |
| RecentSearch.SearchPagesFacts | src/client.rs:449-476 | a found scrobble is the first match on the first page that has one, every earlier page fetched and without a match; nothing found means every page was fetched without a match |
| RecentSearch.ScanPages | src/trait.rs:329-356 | the nested page and scrobble loops compute the page-by-page search |
| ClientEdits.SubmitRetryConfig | src/client.rs:572-580 | edits and deletions retry with a 5-second base delay and a 300-second cap |
| ClientEdits.EditScrobbleSingle | src/client.rs:566-614 | the single response is the retry run's outcome: the submit's verdict, or a failure with a message |
| ClientEdits.SingleDecidedByFirstAnswer | src/client.rs:566-614 | the first submit within budget that is not rate limited decides the single result |
| ClientEdits.SingleRateLimitExhausted | src/client.rs:595-612 | rate limited on every submit, the edit fails with the rate-limit message |
| ClientEdits.DeleteScrobble | src/client.rs:241-275 | the deletion's answer is the retry run's verdict, or `false` on any error |
| ClientEdits.DeleteDecidedByFirstAnswer | src/client.rs:241-275 | a scrobble is reported deleted exactly when the first request that is not rate limited answers `true` |
| ClientEdits.EditDiscovered | src/client.rs:500-553 | the loop submits one edit per discovered variation, in order, and collects the results |
| ClientEdits.EditScrobble | src/client.rs:478-554 | the request's outcome over what discovery found; every found variation shows the request |
| ClientEdits.EditOutcomeFacts | src/client.rs:478-554 | a discovery error is passed on and nothing found is a parse error; otherwise one result per variation with the request overlaid, its album information and its summary |
| ClientEdits.EditResultSuccess | src/client.rs:500-553 | a variation's result succeeds exactly when the first submit that is not rate limited answers `true` |
| ClientDefaults.FindScrobbleByTimestamp | src/trait.rs:329-356 | pages 1 to 10 searched for the timestamp |
| ClientDefaults.TimestampSearchFacts | src/trait.rs:329-356 | a found scrobble carries the timestamp and is the first such on pages 1 to 10; with all pages fetched, not found is the not-found error |
| ClientDefaults.SearchPagesError | src/trait.rs:329-356 | a search error is the error of fetching some page within the bound |
| ClientDefaults.AlbumRename | src/trait.rs:359-371 | every scrobble of the album, renamed, artist unchanged |
| ClientDefaults.ArtistRename | src/trait.rs:376-386 | every scrobble of the artist moved to the new artist, album artist too |
| ClientDefaults.ArtistRenameForTrack | src/trait.rs:391-403 | one track's scrobbles, single-scrobble edit, with artist and album artist both new |
| ClientDefaults.ArtistRenameForAlbum | src/trait.rs:408-420 | every scrobble of the album with artist and album artist both new, album name kept |
| ClientDefaults.EditAlbum | src/trait.rs:359-371 | `edit_scrobble` of the album rename |
| ClientDefaults.EditArtist | src/trait.rs:376-386 | `edit_scrobble` of the artist rename |
| ClientDefaults.EditArtistForTrack | src/trait.rs:391-403 | `edit_scrobble` of the track's artist rename |
| ClientDefaults.EditArtistForAlbum | src/trait.rs:408-420 | `edit_scrobble` of the album's artist rename |
| ClientDefaults.ArtistRenameSubmits | src/trait.rs:376-420 | every scrobble an artist rename submits gets the new artist as artist and album artist and keeps its own track and album names |
| ApiRecentTracks.TrackOf | src/api.rs:178-189 | an entry becomes a track exactly when its date parses as a `u64`: one play at that timestamp, with its album and the artist as album artist |
| ApiRecentTracks.KeptTracks | src/api.rs:165-190 | never more tracks than entries |
| ApiRecentTracks.ParseRecentTracks | src/api.rs:158-200 | a decoding error is a parse error; otherwise the page holds the kept tracks |
| ApiRecentTracks.KeptTracksMembers | src/api.rs:165-190 | a track is kept exactly when it comes from an entry not playing now whose date parses; each kept track is one play with a timestamp |
| ApiRecentTracks.KeptTracksAppend | src/api.rs:165-190 | entries are read independently and in order |
| ApiRecentTracks.ParsePagination | src/api.rs:162-199 | page and total default to 1 when they do not parse; a next page exists exactly when the page is below the total |
| ApiRecentTracks.ExampleAnswer | src/api.rs:207-242 | the example answer drops its now-playing entry and page 1 of 5 has a next page |
| PageParsing.CountTextNumber | src/parsing.rs:852-856 | a count read from a count text always fits a `u32` |
| PageParsing.CountTextDigits | src/parsing.rs:852-856 | digits followed by a word read as their value |
| PageParsing.CountTextRoundTrip | src/parsing.rs:852-856 | a number written out and followed by a word reads back as itself |
| PageParsing.CountTextIgnoresCommas | src/parsing.rs:852-856 | thousands separators do not change the number read |
| PageParsing.CountTextThousands | src/parsing.rs:852-856 | "3,395 scrobbles" reads as 3395 |
| PageParsing.TotalPagesFromText | src/parsing.rs:674-688 | no " of " means no total; a total fits a `u32` |
| PageParsing.TotalPagesRoundTrip | src/parsing.rs:674-688 | the number written after the first " of " is read back |
| PageParsing.TotalPagesDigitsOnly | src/parsing.rs:674-688 | when only digits follow " of ", they are read whole |
| PageParsing.TotalPagesExample | src/parsing.rs:674-688 | "Page 1 of 42" has 42 pages |
| PageParsing.RowPlaycount | src/parsing.rs:620-634 | the first word of the row's count text as a `u32`, and 1 when there is none or it does not parse |
| PageParsing.ParsePagination | src/parsing.rs:637-671 | without a pagination list the page is the only one; otherwise the next link and the total from its text |
| TrackExtraction.ExtractTracksFromDocument | src/parsing.rs:199-320 | the three strategies in turn give the specified tracks |
| TrackExtraction.StrategyOne | src/parsing.rs:216-254 | the loop over the data-track-name elements computes strategy 1 |
| TrackExtraction.StrategyTwo | src/parsing.rs:256-297 | the loop over the hidden inputs continues strategy 1's result |
| TrackExtraction.StrategyThree | src/parsing.rs:299-318 | the loop over the table's tracks computes strategy 3 |
| TrackExtraction.Extend | src/parsing.rs:199-320 | adding a new name below 50 tracks keeps names distinct and seen |
| TrackExtraction.FromAttributesFacts | src/parsing.rs:216-254 | strategy 1 only adds listed names whose play count the page shows, with that play count |
| TrackExtraction.FromAttributesComplete | src/parsing.rs:216-254 | below 50 tracks, every seen name with a shown play count has its track |
| TrackExtraction.FromInputsFacts | src/parsing.rs:256-297 | strategy 2 only adds new non-empty input values, with the shown play count or 0 |
| TrackExtraction.FromTableFacts | src/parsing.rs:299-318 | strategy 3 only adds table tracks with new names, below 50 |
| TrackExtraction.ExtractedTracksFacts | src/parsing.rs:199-320 | at most 50 tracks with distinct names, each from one of the three sources; the table's error is passed on exactly when the first two strategies found fewer than 10 |
| TrackExtraction.ListedNamesKept | src/parsing.rs:216-254 | when strategy 1 ends below 50, every listed name with a shown play count is among the tracks |
| TrackExtraction.FromAttributesGrows | src/parsing.rs:216-254 | strategy 1 only appends |
| TrackExtraction.FromInputsGrows | src/parsing.rs:256-297 | strategy 2 only appends |
| TrackExtraction.FromTableGrows | src/parsing.rs:299-318 | strategy 3 only appends |
| VcrFormData.DecodeOrRaw | src/vcr_form_data.rs:4-17 | a part that does not decode is kept as it is, otherwise its decoding |
| VcrFormData.PairEntry | src/vcr_form_data.rs:4-17 | a pair without `=` contributes nothing |
| VcrFormData.ParseFormData | src/vcr_form_data.rs:4-17 | the loop over the pairs computes the parsed map |
| VcrFormData.InsertAllSnoc | src/vcr_form_data.rs:4-17 | pairs are inserted one after another |
| VcrFormData.InsertAllLastWins | src/vcr_form_data.rs:4-17 | the parsed map holds exactly the keys of pairs with `=`, each with its last pair's value |
| VcrFormData.LastValueFound | src/vcr_form_data.rs:4-17 | a key is parsed exactly when some pair with `=` decodes to it |
| VcrFormData.EncodedPairs | src/vcr_form_data.rs:20-32 | one encoded `key=value` per visited key, with its value |
| VcrFormData.EncodedSplitsIntoPairs | src/vcr_form_data.rs:20-32 | the encoded body splits back into one pair per entry, in order |
| VcrFormData.EncodedPairEntry | src/vcr_form_data.rs:4-32 | an encoded pair parses back to its key and value |
| VcrFormData.LastValueEncoded | src/vcr_form_data.rs:4-32 | scanning the encoded pairs finds each key with its value, and no other key |
| VcrFormData.FormDataRoundTrip | src/vcr_form_data.rs:4-32 | parsing an encoded map gives the map back, whatever order the keys were visited in |
| VcrMatcher.New | src/vcr_matcher.rs:15-21 | method and URL compared, body not |
| VcrMatcher.WithBody | src/vcr_matcher.rs:23-26 | only the body switch changes |
| VcrMatcher.HeadersAgree | src/vcr_matcher.rs:56-113 | every recorded header is unstable or sent with the recorded values |
| VcrMatcher.Matches | src/vcr_matcher.rs:30-115 | a match exactly when method and URL agree as enabled and every stable recorded header is sent with the recorded values |
| VcrMatcher.MatchesSerializable | src/vcr_matcher.rs:117-203 | the same, except that a GET may lack the recorded `content-type` |
| VcrMatcher.OnlyStableRecordedHeadersMatter | src/vcr_matcher.rs:56-113 | requests sending the same values for the stable recorded headers match alike |
| VcrMatcher.SendingRecordedHeadersMatches | src/vcr_matcher.rs:30-203 | a request that sends every recorded header with its recorded values matches |
| VcrMatcher.LineMismatchRejects | src/vcr_matcher.rs:30-55 | a different method or URL, when compared, never matches |
| VcrMatcher.ContentTypeOnlyToleratedWhenSerialised | src/vcr_matcher.rs:117-203 | a GET without its recorded `content-type` matches only through `matches_serializable` |
| VcrMatcher.SessionHeadersUnstable | src/vcr_matcher.rs:57-70 | cookies and CSRF tokens are ignored |
| LegacyEdits.New | src/edit.rs:28-52 | the ten arguments become the ten fields |
| LegacyEdits.FromTrackInfo | src/edit.rs:55-73 | an edit of one scrobble that changes nothing, with the artist as album artist |
| LegacyEdits.WithTrackName | src/edit.rs:76-79 | sets the new track name and nothing else |
| LegacyEdits.WithAlbumName | src/edit.rs:82-85 | sets the new album name and nothing else |
| LegacyEdits.WithArtistName | src/edit.rs:88-92 | sets the new artist and album artist and nothing else |
| LegacyEdits.WithEditAll | src/edit.rs:95-98 | sets the flag and nothing else |
| LegacyEdits.BuildersKeepOriginals | src/edit.rs:55-98 | a builder chain keeps the originals and the timestamp; a later artist wins; track and album setters commute |
| LegacyEdits.RestoringNamesChangesNothing | src/edit.rs:76-92 | setting each name back to its original gives an edit that changes nothing |
| EditContexts.FromTrackListing | src/scrobble_edit_context.rs:115-128 | the listing's data, to edit every scrobble |
| EditContexts.IntoEditContext | src/scrobble_edit_context.rs:442-449 | the track's name, artist and play count, no album, every scrobble |
| EditContexts.RenameFields | src/scrobble_edit_context.rs:156-192 | the rename keeps the originals and the artist and sets the two new names |
| EditContexts.CreateEdit | src/scrobble_edit_context.rs:156-192 | the context's track renamed; the album falls back to the track name; edit-all with timestamp 0, or the first given timestamp |
| EditContexts.CreateEditUnchangedNames | src/scrobble_edit_context.rs:156-192 | asking for the names the context already has changes nothing |
| EditContexts.DescribeEdit | src/scrobble_edit_context.rs:381-399 | the description names the track, artist and new name, with the approximate scrobble count or the number of timestamps |
| EditContexts.DescribeEditExample | src/scrobble_edit_context.rs:370-379 | the documented example describes itself as "Will edit ALL instances of 'Old Name' by 'Artist' to 'New Name' (approximately 15 scrobbles)" |
| EditContexts.DescribeSpecificExample | src/scrobble_edit_context.rs:390-397 | two given scrobbles are described as "Will edit 2 specific scrobbles of …" with the track, artist and new name |
| EditContexts.ExecuteEditRequestFacts | src/scrobble_edit_context.rs:232-277 | the submitted edit renames the context's track; a lookup error is passed on; a found scrobble supplies the timestamp |
| EditContexts.RealDataRequestFacts | src/scrobble_edit_context.rs:319-356 | a real-data edit starts from a scrobble of the track found within five pages; none found is a parse error |
| TrackEditor.Initial | src/tui.rs:38-56 | a new editor is loading page 1 with no tracks and more pages expected, and keeps the selection invariant |
| TrackEditor.KeyStepKeepsInv | src/tui.rs:112-197 | no key changes the list, and the selected row stays on it and highlighted |
| TrackEditor.QuitKeys | src/tui.rs:112-190 | the editor quits on `q` while browsing or editing, or on Control+C while editing, and on no other key |
| TrackEditor.MoveSelection | src/tui.rs:130-141 | Up/`k` and Down/`j` move the selection by one, stopping at either end of the list, and change nothing else |
| TrackEditor.EditKeys | src/tui.rs:156-190 | Backspace drops the buffer's last character, a plain character is appended, the edit being prepared follows the buffer, Esc drops the edit and returns to browsing |
| TrackEditor.ModeChanges | src/tui.rs:112-154 | loading ignores keys; an error returns to browsing exactly when there are tracks; Enter or `e` on a row waits for that track's edit form with its name in the buffer |
| TrackEditor.LoadTracksOutcome | src/tui.rs:58-85 | a failed fetch leaves the editor loading; otherwise the list is the fetched page, browsed from the first row, or an error when it is empty |
| TrackEditor.LoadMoreKeepsRows | src/tui.rs:87-110 | loading more only appends rows, so the selection stays valid; with no more pages nothing changes |
| TrackEditor.LoadEditFormOutcome | src/tui.rs:199-218 | a loaded form starts editing the selected track's name; a failed load shows the error; with no selected row nothing changes |
| TrackEditor.SaveEditOutcome | src/tui.rs:220-259 | the selected row takes the new name exactly when the server accepted the edit; other rows are kept; the editor browses again with no edit pending |
| TrackEditor.TrackEditorApp.constructor | src/tui.rs:38-56 | the fields of a new editor |
| TrackEditor.TrackEditorApp.HandleKeyEvent | src/tui.rs:112-125 | the new fields and the quit answer are the key step's, and the invariant holds |
| TrackEditor.TrackEditorApp.HandleBrowseKeys | src/tui.rs:127-154 | the browsing key step |
| TrackEditor.TrackEditorApp.MoveUp | src/tui.rs:130-135 | one row up unless on the first |
| TrackEditor.TrackEditorApp.MoveDown | src/tui.rs:136-141 | one row down unless on the last |
| TrackEditor.TrackEditorApp.EditSelected | src/tui.rs:142-146 | starts editing the selected row, if there is one |
| TrackEditor.TrackEditorApp.StartEditMode | src/tui.rs:192-197 | loading the form, with the track's name in the buffer |
| TrackEditor.TrackEditorApp.HandleEditKeys | src/tui.rs:156-190 | the editing key step |
| TrackEditor.TrackEditorApp.LoadTracks | src/tui.rs:58-85 | the fields after the first page arrived; an error exactly when the fetch failed |
| TrackEditor.TrackEditorApp.LoadMoreTracks | src/tui.rs:87-110 | the fields after the next page arrived; an error exactly when there were more pages and the fetch failed |
| TrackEditor.TrackEditorApp.LoadEditForm | src/tui.rs:199-218 | the fields after the edit form arrived; never an error |
| TrackEditor.TrackEditorApp.SaveEdit | src/tui.rs:220-259 | the fields after the save answered; never an error |
| CliUtils.ParseRange | src/bin/commands/utils.rs:101-128 | success exactly for two `-`-separated `u64`s in order, giving them; the error text for each failure |
| CliUtils.ParseRangeRoundTrip | src/bin/commands/utils.rs:101-128 | `start-end` written out reads back as the range |
| CliUtils.ParseRangeReversed | src/bin/commands/utils.rs:119-124 | a range written backwards is refused with a message naming both ends |
| CliUtils.ElapsedBounds | src/bin/commands/utils.rs:84-94 | the shown count is the whole number of the largest unit that has elapsed at least once |
| CliUtils.FormatTimestamp | src/bin/commands/utils.rs:76-98 | a future timestamp is shown raw and marked; a past one as seconds, minutes, hours or days ago |
| DeleteCommand.Queue | src/bin/commands/delete.rs:93-116 | no more entries than selected tracks |
| DeleteCommand.DeletedEvent | src/bin/commands/delete.rs:341-388 | the deletion event numbers the call from 1, names the scrobble, and succeeds exactly when the call returned true, with a message otherwise |
| DeleteCommand.FoundSnoc | src/bin/commands/delete.rs:93-116 | one more selected track adds its found event and queue entry at the end |
| DeleteCommand.ExecuteDeletions | src/bin/commands/delete.rs:283-410 | the loop's events and counters are those of the deletions' specification |
| DeleteCommand.TakePage | src/bin/commands/delete.rs:93-116 | a page's scrobbles are numbered on from the selection and found and queued in order |
| DeleteCommand.Select | src/bin/commands/delete.rs:253-277 | the found events and queue of a selection, numbered from 1 with offsets from the start |
| DeleteCommand.ScanPages | src/bin/commands/delete.rs:81-122 | the found events and queue are those of the pages scanned up to the first empty or failed one |
| DeleteCommand.DeleteRecentPages | src/bin/commands/delete.rs:65-126 | the page mode's run once the range is read |
| DeleteCommand.HandleDeleteRecentPages | src/bin/commands/delete.rs:65-126 | the page mode's run, a range that does not read being the error |
| DeleteCommand.ScanTimestampRange | src/bin/commands/delete.rs:145-182 | the kept scrobbles are those in range on pages 1 to 20, up to the first empty or failed page |
| DeleteCommand.ScanPagesInRange | src/bin/commands/delete.rs:145-181 | the kept scrobbles are those with a timestamp in range, from the pages between the bounds up to the first empty or failed one |
| DeleteCommand.KeepInRange | src/bin/commands/delete.rs:155-176 | a page's scrobbles in range are appended in order |
| DeleteCommand.DeleteTimestampRange | src/bin/commands/delete.rs:129-184 | the timestamp mode's run once the range is read |
| DeleteCommand.HandleDeleteTimestampRange | src/bin/commands/delete.rs:129-184 | the timestamp mode's run |
| DeleteCommand.CollectRecent | src/bin/commands/delete.rs:205-230 | pages are gathered until enough scrobbles are held or a page is empty or fails |
| DeleteCommand.DeleteRecentOffset | src/bin/commands/delete.rs:187-280 | the offset mode's run once the range is read |
| DeleteCommand.HandleDeleteRecentOffset | src/bin/commands/delete.rs:187-280 | the offset mode's run |
| DeleteFacts.FoundSound | src/bin/commands/delete.rs:93-116 | as many found events as queue entries; each describes the selected track at its number with a timestamp; numbers increase |
| DeleteFacts.FoundComplete | src/bin/commands/delete.rs:93-116 | every selected track with a timestamp has a found event |
| DeleteFacts.InRangeFacts | src/bin/commands/delete.rs:155-176 | timestamp mode keeps exactly the tracks whose timestamp is in the range |
| DeleteFacts.PagesScannedStopsAt | src/bin/commands/delete.rs:81-122 | pages after the first empty or failed one make no difference |
| DeleteFacts.PagesScannedFromPages | src/bin/commands/delete.rs:81-122 | every scanned scrobble comes from a fetched page in the range |
| DeleteFacts.CollectedEnough | src/bin/commands/delete.rs:205-230 | while pages keep coming, offset mode holds at least the scrobbles it needs |
| DeleteFacts.OffsetsInRange | src/bin/commands/delete.rs:232-277 | every found event's offset is in the requested range and below the number collected, and describes the scrobble at that offset |
| DeleteFacts.SucceededPlusFailed | src/bin/commands/delete.rs:341-388 | every delete call is counted exactly once |
| DeleteFacts.DeletedEventsInOrder | src/bin/commands/delete.rs:341-388 | one deletion event per call, in queue order |
| DeleteFacts.DeletedEventsCounted | src/bin/commands/delete.rs:341-405 | the counters agree with the events' success flags |
| DeleteFacts.DeletionsFacts | src/bin/commands/delete.rs:283-410 | an error only when the prompt cannot be read; the summary counts the queue and the calls; nothing is deleted on an empty queue, a dry run or a refusal; otherwise every queued scrobble is deleted in order |
| DeleteFacts.DryRunDeletesNothing | src/bin/commands/delete.rs:65-308 | a dry run's output does not depend on the prompt or the delete calls |
| DeleteFacts.SummaryCountsFound | src/bin/commands/delete.rs:283-410 | each mode's final summary counts exactly the found events emitted before it |
| LegacyDeleteCommand.DeleteEach | src/commands/delete.rs:83-107 | the counters are the successes and failures of the calls |
| LegacyDeleteCommand.QueuePage | src/commands/delete.rs:36-56 | a page's scrobbles with a timestamp are queued in order |
| LegacyDeleteCommand.ScanPages | src/commands/delete.rs:23-63 | the scrobbles seen and queued are those of the pages up to the first empty or failed one |
| LegacyDeleteCommand.HandleDeleteRecentPages | src/commands/delete.rs:5-124 | the older page mode's run |
| LegacyDeleteCommand.QueueAll | src/commands/delete.rs:157-180 | the kept scrobbles, all timestamped, are queued in order |
| LegacyDeleteCommand.HandleDeleteTimestampRange | src/commands/delete.rs:127-251 | the older timestamp mode's run |
| LegacyDeleteCommand.DeleteSlice | src/commands/delete.rs:354-390 | a call per timestamped scrobble of the slice; one without a timestamp counts as failed |
| LegacyDeleteCommand.DeleteRecentOffset | src/commands/delete.rs:254-413 | the older offset mode's run once the range is read |
| LegacyDeleteCommand.HandleDeleteRecentOffset | src/commands/delete.rs:254-413 | the older offset mode's run |
| LegacyDeleteCommand.CountersAddUp | src/commands/delete.rs:18-413 | the counters add up to the calls made, and in offset mode to the slice's size |
| ShowCommand.MaxOffset | src/bin/commands/show.rs:12 | the largest requested offset |
| ShowCommand.Insert | src/bin/commands/show.rs:17-18 | inserting keeps the elements and, into an ascending list, the order |
| ShowCommand.SortAscending | src/bin/commands/show.rs:17-18 | the sorted offsets are ascending and a permutation of the request, duplicates kept |
| ShowCommand.Unavailable | src/bin/commands/show.rs:52-56 | the unavailable offsets are exactly the requested ones at or beyond the number gathered |
| ShowCommand.HandleShowScrobbles | src/bin/commands/show.rs:8-82 | the run's events are those of the command's specification |
| ShowCommand.ReportOffsets | src/bin/commands/show.rs:60-77 | one event per sorted offset, counting those shown |
| ShowCommand.CountBelowSorted | src/bin/commands/show.rs:17-18 | sorting does not change how many offsets are below a bound |
| ShowCommand.CountPlusUnavailable | src/bin/commands/show.rs:52-77 | every offset is either shown or unavailable |
| ShowCommand.ReportOrder | src/bin/commands/show.rs:17-18 | one event per requested offset, in ascending order, every requested offset used once |
| ShowCommand.ReportEvents | src/bin/commands/show.rs:63-77 | an offset below the number gathered shows that scrobble; otherwise the event gives the number gathered |
| ShowCommand.ReportCounts | src/bin/commands/show.rs:20-79 | the number gathered, the unavailable offsets and the shown count, which together account for every request |
| ShowCommand.ShowAllAvailable | src/bin/commands/show.rs:22-49 | while pages keep coming, every requested offset is shown |
| ShowCommand.ReportAllBelow | src/bin/commands/show.rs:52-77 | when every requested offset is below the number gathered, nothing is unavailable and every offset is shown |
| EditCommand.CreateScrobbleEditFromArgs | src/bin/commands/edit.rs:45-72 | the originals are the arguments; the new artist defaults to the original; the other new values, the timestamp and the flag are as given |
| EditCommand.NoNewValuesKeepVariation | src/bin/commands/edit.rs:45-72 | a request naming no new values, laid over a discovered scrobble of the same artist, leaves it as it is apart from edit-all |
| EditCommand.AppliedEvent | src/bin/commands/edit.rs:129-165 | the applied event numbers the variation from 1 and succeeds exactly when every result of the response succeeded, with a message otherwise |
| EditCommand.DiscoverAndHandleEdits | src/bin/commands/edit.rs:84-193 | the loop's events, submissions and counters are those of the command's specification |
| EditCommand.ApplyEdit | src/bin/commands/edit.rs:114-165 | the event for one submission, and whether it counts as a success |
| EditCommand.SuccessesPlusFailures | src/bin/commands/edit.rs:129-165 | every submission counts once, as a success or a failure |
| EditCommand.HandleEditsFacts | src/bin/commands/edit.rs:84-193 | one event per discovered variation, numbered in discovery order; a dry run submits nothing; otherwise the request laid over each variation is submitted and the summary counts add up to the variations |
| LegacyEditCommand.Responses | src/commands/edit.rs:105-125 | the responses received, at most one per submission |
| LegacyEditCommand.LegacyDiscoverAndHandleEdits | src/commands/edit.rs:48-172 | the walk's submissions and report are those of the command's specification |
| LegacyEditCommand.Walk | src/commands/edit.rs:59-125 | a dry run records every variation and submits nothing; otherwise every variation is submitted with its final edit, and the responses and success and failure counts are those of the submissions |
| LegacyEditCommand.Record | src/commands/edit.rs:107-122 | a response is kept and counted as a success or a failure; an error is counted as a failure and keeps nothing |
| LegacyEditCommand.Summarise | src/commands/edit.rs:127-170 | nothing found, the dry-run counts of distinct tracks and albums, or the applied run's counters, verdict and failure details |
| LegacyEditCommand.UniqueBounds | src/commands/edit.rs:137-148 | distinct track and album names number at least one and at most the edits |
| LegacyEditCommand.FailedDetailsSound | src/commands/edit.rs:161-168 | every detail line names an unsuccessful received response by its position among the responses |
| LegacyEditCommand.LegacyHandleEditsFacts | src/commands/edit.rs:48-172 | a report exactly when discovery ended without error; a dry run submits nothing; the counters add up to the variations and decide the verdict; failure details are bounded and sound |
| LegacyEditCommand.DetailsAtMostFailures | src/commands/edit.rs:105-168 | no more detail lines than failed submissions |
| LegacyEditCommand.DetailsNumberedAmongResponses | src/commands/edit.rs:161-168 | detail lines are numbered among the responses received, not among the variations |
| CliDispatch.IsDryRun | src/bin/commands/mod.rs:415 | a command is a dry run unless applied without `--dry-run` |
| CliDispatch.ExecuteCommand | src/bin/commands/mod.rs:394-483 | the handlers run are those of the dispatch's specification |
| CliDispatch.DryRunUnlessApplied | src/bin/commands/mod.rs:400-456 | without `--apply`, or with `--dry-run`, an edit or a delete submits nothing and does not depend on the prompt or the calls |
| CliDispatch.DeletePrecedence | src/bin/commands/mod.rs:433-456 | pages first, then timestamps, then offsets; none of them is refused |
| CliDispatch.ShowNeedsOffsets | src/bin/commands/mod.rs:476-482 | `show` is refused exactly when no offset is given |
| CliDispatch.EditRequestFromFlags | src/bin/commands/mod.rs:400-430 | the request carries the flags' values and applies to all scrobbles unless `--no-edit-all` |
| SearchCommand.PagePosition | src/bin/commands/search.rs:40-46 | the starting page is at least 1, the skip count is below the page size, and together they locate result `offset + 1` |
| SearchCommand.Shown | src/bin/commands/search.rs:63-86 | no more items shown than taken |
| SearchCommand.HandleSearchCommand | src/bin/commands/search.rs:11-167 | the run's events are those of the command's specification |
| SearchCommand.ShowItems | src/bin/commands/search.rs:63-86 | the found events are those of the shown items, and the loop stops at the limit exactly when it does not read to the end |
| SearchCommand.SearchFacts | src/bin/commands/search.rs:11-167 | the run starts with its start event, numbers found items consecutively from `offset + 1`, shows at most `limit`, and ends with "no results" exactly when nothing was shown, then its finish event |
| SearchCommand.ShownAreListingFromOffset | src/bin/commands/search.rs:40-86 | over a listing in full pages, the item numbered `d` is the `d`-th result of the whole listing |
| LegacySearchCommand.HandleLegacySearchCommand | src/commands/search.rs:5-202 | the run's lines are those of the command's specification |
| LegacySearchCommand.PrintResults | src/commands/search.rs:60-108 | the result lines are those of the shown items, and the loop stops at the limit exactly when it does not read to the end |
| LegacySearchCommand.LegacySearchFacts | src/commands/search.rs:5-202 | results are numbered from `offset + 1`, at most `limit` of them; "no results" is printed exactly when nothing was shown |
| LegacySearchCommand.LegacyPagePosition | src/commands/search.rs:13-22 | with 50-result pages the starting page and skip still locate result `offset + 1` |
| EditAnalysis.ExtractTrackAlbumNames | src/edit_analysis.rs:87-118 | each name comes from its table cell, trimmed, when present, and from the raw-text pattern only otherwise |
| EditAnalysis.AnalysisDecision | src/edit_analysis.rs:28-81 | success exactly when the status is 2xx, a success alert is shown and no error alert; an error alert's trimmed text gives the message; otherwise the message reports the status; the message always says which |
| EditAnalysis.TextFallbackOnlyWhenMissing | src/edit_analysis.rs:101-115 | with both cells present the raw-text patterns do not matter; a missing cell's name comes from its pattern |
| EditAnalysis.NamesDoNotDecide | src/edit_analysis.rs:52-73 | the names found decide neither success nor a failure message |
| ScrubActionProviders.Display | scrobble-scrubber/src/scrub_action_provider.rs:12-16 | the message after the fixed prefix |
| ScrubActionProviders.DisplayInjective | scrobble-scrubber/src/scrub_action_provider.rs:12-16 | different errors display differently |
| ScrubActionProviders.ConversionsDisplay | scrobble-scrubber/src/scrub_action_provider.rs:20-36 | a message is kept verbatim; a rule error is wrapped after "Rewrite error: " |
| ScrubActionProviders.AnyNeedsConfirmationIff | scrobble-scrubber/src/scrub_action_provider.rs:103-106 | some rule that applies needs confirmation exactly when one exists among the rules |
| ScrubActionProviders.RulesProviderDecision | scrobble-scrubber/src/scrub_action_provider.rs:86-120 | an error exactly when checking or applying fails; no action when nothing applies or nothing changes; a rule proposal exactly when a rule needing confirmation applies; otherwise the rewritten edit |
| ScrubActionProviders.FirstSuggestion | scrobble-scrubber/src/scrub_action_provider.rs:198-222 | the position of the first real suggestion, every earlier answer being none or an error |
| ScrubActionProviders.Answers | scrobble-scrubber/src/scrub_action_provider.rs:198-222 | one answer per provider |
| ScrubActionProviders.OrScrubActionProvider.constructor | scrobble-scrubber/src/scrub_action_provider.rs:135-140 | no providers and no names |
| ScrubActionProviders.OrScrubActionProvider.AddProvider | scrobble-scrubber/src/scrub_action_provider.rs:142-154 | the provider and its name are appended together |
| ScrubActionProviders.OrScrubActionProvider.WithProviders | scrobble-scrubber/src/scrub_action_provider.rs:156-166 | a new provider holding the given ones in order |
| ScrubActionProviders.OrScrubActionProvider.AnalyzeTrack | scrobble-scrubber/src/scrub_action_provider.rs:198-222 | the answer is the first real suggestion or no action, never an error, and only the providers up to it are asked |
| ScrubActionProviders.OrSuggestionFacts | scrobble-scrubber/src/scrub_action_provider.rs:198-222 | a real suggestion exactly when some provider gives one, and then the first in order; providers after it do not matter |
| Persistence.WithDefaultRules | scrobble-scrubber/src/persistence.rs:136-142 | the rules state holds the default rules |
| Persistence.MemoryStorage.constructor | scrobble-scrubber/src/persistence.rs:96-105 | both states are the defaults |
| Persistence.MemoryStorage.ClearState | scrobble-scrubber/src/persistence.rs:110-114 | both states back to the defaults |
| Persistence.MemoryStorage.LoadTimestampState | scrobble-scrubber/src/persistence.rs:116-118 | the stored timestamp state |
| Persistence.MemoryStorage.SaveTimestampState | scrobble-scrubber/src/persistence.rs:120-123 | the timestamp state is replaced and the rules state kept |
| Persistence.MemoryStorage.LoadRewriteRulesState | scrobble-scrubber/src/persistence.rs:125-127 | the stored rules state |
| Persistence.MemoryStorage.SaveRewriteRulesState | scrobble-scrubber/src/persistence.rs:129-132 | the rules state is replaced and the timestamp state kept |
| Persistence.FileStorage.constructor | scrobble-scrubber/src/persistence.rs:46-54 | the database read from the file, or an empty one |
| Persistence.FileStorage.ClearState | scrobble-scrubber/src/persistence.rs:59-63 | both keys removed |
| Persistence.FileStorage.LoadTimestampState | scrobble-scrubber/src/persistence.rs:65-70 | the stored timestamp state, or the default |
| Persistence.FileStorage.SaveTimestampState | scrobble-scrubber/src/persistence.rs:72-75 | the timestamp key is set and nothing else changes |
| Persistence.FileStorage.LoadRewriteRulesState | scrobble-scrubber/src/persistence.rs:77-82 | the stored rules state, or the default |
| Persistence.FileStorage.SaveRewriteRulesState | scrobble-scrubber/src/persistence.rs:84-87 | the rules key is set and nothing else changes |
| Persistence.FileLoadAfterSave | scrobble-scrubber/src/persistence.rs:59-87 | loading after a save gives the saved state, and saving one state leaves the other's load unchanged |
| Persistence.FileDefaults | scrobble-scrubber/src/persistence.rs:46-70 | an unreadable file or a cleared store loads the default states |
| Scrubber.TrackKeyDetermines | scrobble-scrubber/src/scrubber.rs:105 | when no artist contains a bar, the key tells tracks apart by artist and name |
| Scrubber.FirstBar | scrobble-scrubber/src/scrubber.rs:105 | the first bar of a key follows the artist |
| Scrubber.KeysCanCollide | scrobble-scrubber/src/scrubber.rs:105 | with a bar in an artist's name, two different tracks share a key |
| Scrubber.AnalyzeTrackPrecedence | scrobble-scrubber/src/scrubber.rs:132-188 | an action only when the rules apply and change something; a track rename wins and carries the new name; an artist rename needs the track name unchanged |
| Scrubber.ApplyAction | scrobble-scrubber/src/scrubber.rs:190-215 | a track rename makes no call; an artist rename calls the artist edit with the track's name and artist, and its error is passed on |
| Scrubber.Unseen | scrobble-scrubber/src/scrubber.rs:107-110 | the tracks whose key is unseen, each as often as listed |
| Scrubber.ScanIsFirstUnseen | scrobble-scrubber/src/scrubber.rs:96-111 | the collected tracks are the first `max_tracks` unseen ones, or all of them when fewer |
| Scrubber.ErrorPersists | scrobble-scrubber/src/scrubber.rs:114-126 | after a failed call later tracks change nothing |
| Scrubber.ScrobbleScrubber.constructor | scrobble-scrubber/src/scrubber.rs:22-65 | the stored states are loaded; with no stored rules the default rules are used and saved; nothing is seen |
| Scrubber.ScrobbleScrubber.CheckAndProcessTracks | scrobble-scrubber/src/scrubber.rs:90-130 | the seen keys, calls and result are those of the cycle's specification; nothing else changes |
| Scrubber.ScrobbleScrubber.ProcessTracks | scrobble-scrubber/src/scrubber.rs:114-126 | the processing loop's seen keys, calls and result are those of its specification |
| Scrubber.ScrobbleScrubber.RunCycle | scrobble-scrubber/src/scrubber.rs:67-88 | after processing, `now` is recorded as the last processed time and saved |
| Scrubber.ProcessFacts | scrobble-scrubber/src/scrubber.rs:114-126 | keys are marked in order, every one with no failed call; a failure comes from an artist rename outside a dry run and ends the cycle before its track is marked; a dry run calls nothing |
| Scrubber.CycleFacts | scrobble-scrubber/src/scrubber.rs:90-130 | no seen track is processed, at most `max_tracks` are, in listing order, and a dry run makes no call |
| Scrubber.RepeatedTrackCollectedTwice | scrobble-scrubber/src/scrubber.rs:96-111 | a track listed twice among the unseen ones is processed twice in one cycle |
| OpenAiProvider.ModelName | scrobble-scrubber/src/openai_provider.rs:108-115 | a known model is kept and anything else becomes gpt-4o |
| OpenAiProvider.ModelNameStable | scrobble-scrubber/src/openai_provider.rs:108-115 | choosing the model again changes nothing |
| OpenAiProvider.TargetRule | scrobble-scrubber/src/openai_provider.rs:73-90 | a rule exactly for the four valid fields, rewriting that field only, with no confirmation |
| OpenAiProvider.BuildStepCarriesValues | scrobble-scrubber/src/openai_provider.rs:63-72 | the step carries the suggestion's pattern, replacement, flags and bound |
| OpenAiProvider.IntoRuleAndMotivation | scrobble-scrubber/src/openai_provider.rs:63-93 | success exactly for a valid target field, giving its rule and the motivation; otherwise "Invalid target field: " and the field |
| OpenAiProvider.SuggestedEditFields | scrobble-scrubber/src/openai_provider.rs:505-520 | each new value defaults to the track's own; the album artist follows a new artist; the originals are kept |
| OpenAiProvider.RuleFromCallAgrees | scrobble-scrubber/src/openai_provider.rs:535-623 | a rule call gives a rule exactly when the suggestion converts, and the same rule |
| OpenAiProvider.CallSuggestionFacts | scrobble-scrubber/src/openai_provider.rs:471-631 | a suggestion only for a track in the batch; errors only from the two known functions; unknown functions and invalid fields are skipped |
| OpenAiProvider.Position | scrobble-scrubber/src/openai_provider.rs:523-533 | the place of a track's entry, or none when it has none |
| OpenAiProvider.AddSuggestion | scrobble-scrubber/src/openai_provider.rs:523-533 | the suggestion joins its track's entry, or a new entry at the end |
| OpenAiProvider.FirstAppearances | scrobble-scrubber/src/openai_provider.rs:463-639 | each track once, exactly the tracks suggested for |
| OpenAiProvider.Filter | scrobble-scrubber/src/openai_provider.rs:463-639 | a track with no suggestion has none |
| OpenAiProvider.GroupFacts | scrobble-scrubber/src/openai_provider.rs:463-639 | the entries are the suggested tracks in first-suggestion order, each with its suggestions in reply order |
| OpenAiProvider.GroupDistinct | scrobble-scrubber/src/openai_provider.rs:523-533 | no track has two entries |
| OpenAiProvider.AnalyzeTracks | scrobble-scrubber/src/openai_provider.rs:317-639 | the result is the batch's specification; the model is asked exactly when there are tracks |
| OpenAiProvider.ErrorPersists | scrobble-scrubber/src/openai_provider.rs:463-639 | after a failing call later calls change nothing |
| OpenAiProvider.BatchFacts | scrobble-scrubber/src/openai_provider.rs:317-639 | no tracks gives no suggestions; otherwise the entries are grouped by track within the batch |
| OpenAiProvider.SuggestionsInBatch | scrobble-scrubber/src/openai_provider.rs:463-639 | every suggestion names a track of the batch |

## Left out

- HTTP transport, request and header construction, and the network half of login. Page fetches, edit submits, deletions and logins are outcome functions or sequences of results.
- HTML traversal with CSS selectors, regular expressions and URL percent-decoding. Documents arrive as extracted cells, attributes and flags. The raw-text name patterns of `src/edit_analysis.rs`, and percent-encoding in `src/vcr_form_data.rs`, are abstract functions. The form-data round trip is proved for an encoder that escapes `&` and `=` and a decoder that inverts it.
- JSON encoding and decoding of sessions, events, API answers and OpenAI tool-call arguments. Decoding is a parameter that yields datatypes or an error text.
- Async runtime, sleeping, cancellation `select!`, event broadcast channels and locks. Retry waits are recorded as events rather than slept. `MemoryStorage`'s two `RwLock`s become two fields.
- Clocks: "now" is a parameter of `format_timestamp` and of the scrubber's cycle. Timestamps are natural numbers.
- `Retry.RetryWithBackoffCancelable`: `2^retries` is unbounded, so there is no `u32` overflow.
- Output: log lines, stdout/stderr JSON printing and the older commands' verbose lines. The older search command's verbose detail lines are not modelled.
- The confirmation prompt of `delete` is an input: the answer, or an error when it cannot be read.
- The `list` subcommands, `load_or_create_client`, `get_credentials` and clap parsing are not part of this model.
- The terminal editor's rendering and event loop (`render_ui`, `run_track_editor`) are not modelled.
- `src/session_persistence.rs` (XDG paths) is not part of this model. In `FileStorage` the pickledb file is a map. Reading and writing it are assumed to succeed; an unreadable file gives an empty database.
- The `rewrite` module of the scrubber is not part of this model. Its rules and engine are the datatypes of `RewriteInterface`. `RewriteRule::new` and `SdRule::new_*` are assumed to give a rule with no steps and no confirmation, and a step with no flags and no bound. `with_default_rules` takes the default rule list as a parameter.
- The OpenAI provider: transport, request building, tool schemas and prompts are left out. Its reply is given as the first choice's tool calls: no choice, or no tool calls, is an empty list. `analyze_tracks` is modelled as the batch operation it is, not as the one-track trait method. `src/scrub_action_provider.rs` and `src/openai_provider.rs` are not declared in the scrubber's `lib.rs`; they are modelled from their own text.
- Provider names (`provider_name`) and the "or" provider's logging of skipped errors are left out. `RewriteRulesScrubActionProvider::new` and `from_rules` only store the rule list, which the model passes directly.
- `run` loops forever: `ScrobbleScrubber.RunCycle` models one iteration, without the sleep. Errors of the state store are not modelled.
- `Scrubber.KeysCanCollide`: the `artist|name` key is ambiguous when an artist contains a bar. The model shows this rather than correcting it.
- `ClientDefaults.TimestampSearchFacts`: "not found exactly when no scrobble carries the timestamp" is stated only when all ten pages can be fetched. A fetch error's text could otherwise coincide with the not-found error.
- `ShowCommand.HandleShowScrobbles` requires a non-empty offset list. The source's `max().unwrap()` would panic on one, and `execute_command` refuses it before the call. `execute_command` passes a third argument (`json_output`) to `handle_show_scrobbles`, and to `handle_search_command` a `details` flag and `json_output`. The model uses the handlers' own parameters.
- `SearchCommand.HandleSearchCommand`: the `as u32` truncation of a starting page above `u32::MAX` is not modelled.
- `DeleteCommand.HandleDeleteRecentOffset`: the panics of `page.try_into().unwrap()` beyond `u32` pages and of `end_offset + 1` at `u64::MAX` are not modelled.
- `DeleteCommand.HandleDeleteRecentPages`: the panic of `page.try_into().unwrap()` for a page above `u32::MAX` (src/bin/commands/delete.rs:84) is not modelled; pages are unbounded naturals.
- `LegacyDeleteCommand.HandleDeleteRecentPages` and `LegacyDeleteCommand.HandleDeleteRecentOffset`: the same `page.try_into().unwrap()` panics (src/commands/delete.rs:26 and 281) are not modelled.
- Byte offsets: Rust measures and slices strings in UTF-8 bytes, the model in characters. The two agree wherever an offset comes from `find` or covers ASCII text only. Where a byte count decides, the model counts bytes with `Text.Utf8Length` and `Text.IsAscii`: the 50-byte session cookie test (`Sessions.IsValid`, `Login.IsRealSessionCookie`) and the slice at byte 8 (`RequestInfos.PathAsWritten`).
- `LegacyDeleteCommand`: src/commands/delete.rs:1 imports `parse_range` from `src/commands/utils.rs`, which is not part of this model. The older handlers use `CliUtils.ParseRange` of src/bin/commands/utils.rs:101-128 in its place.
- `Text.LowerChar` and `Text.ToLower`: `str::to_lowercase` is modelled for ASCII letters only; other letters are left as they are. This affects `HttpRules.IsRateLimitResponse` and the header-name comparisons of `VcrMatcher`, which match Rust's only on ASCII text. Whitespace (`Text.IsSpace`, and so `Trim` and `FirstToken`) follows Unicode's `White_Space` property, as `char::is_whitespace` does.
- `SearchCommand.HandleSearchCommand`: the `Artists` search type declared in src/bin/commands/mod.rs:14-22 has no arm in the handler's match (src/bin/commands/search.rs:27-30), so the handler as written covers only tracks and albums; `SearchCommand.SearchType` has those two variants.
- `src/client.rs` builds its `RetryConfig` for `edit_scrobble_single` and `delete_scrobble` without the `enabled` field, and calls `retry_with_backoff` with four arguments. Both are modelled as retrying with retries enabled.
- `parse_json_tracks_page` always fails, so the JSON path of `extract_tracks_from_document` never yields tracks. Only the three HTML strategies are modelled.
- `src/scrobble_edit_context.rs` is not declared in the library's `lib.rs`; it is modelled from its own text, against the older client's methods.
- The older `edit` command's dry-run listing of each variation is printed output and is not modelled. Only its summary counts are modelled.

## Findings

| source | as written | input that shows it | evidently intended | confidence | as-written member | corrected member |
|---|---|---|---|---|---|---|
| src/types.rs:1212-1218 | the path of a full URL is found by searching for `/` after byte 8, the length of `https://`, for both schemes | `"http://"` slices past its end and `"http://é/x"` slices inside `é` (both panic); `"http:///x"` gives the path `/` instead of `/x` | skip the scheme's own length (7 for `http://`) before searching for the host's end | not executed | RequestInfos.PathAsWrittenEmptyHost, RequestInfos.PathAsWrittenSplitsChar | RequestInfos.StripOriginOfUrl |
