# TuneHunt core, modelled in Dafny

TuneHunt is a multiplayer music-guessing game. Players join a room, each
picks a track, and they then guess the title and artist of short previews
against a countdown. This project models the deterministic core of the
game's server helpers and client screens, and proves properties of it:

- the Deezer preview-URL freshness gate and the preview refresh decision
  (`lib/refresh-preview-url.ts`);
- the Deezer track normaliser and its id prefix (`lib/deezer.ts`);
- the audio proxy rewrite (`lib/audio-proxy.ts`);
- the Spotify access-token cache (`lib/spotify.ts`), as a class over its
  two cache fields;
- room-code generation, the free-code retry loop, creation defaults and the
  room listing (`app/api/rooms/route.ts`);
- playlist listing (filter, order, page, `hasMore`) and creation
  (`app/api/playlists/route.ts`);
- the state of the round screen, the host's song list, the playlist editor,
  the track-selection screen, the rooms page, the playlists page and the
  music search box. Each is a class whose fields are the component's state
  and whose methods are its handlers.

Shared modules hold what the sources use from the JavaScript platform:
- `JsText`: `trim`, `toLowerCase`, `includes`, decimal digits;
- `Utf8` (RFC 3629) and `Base64` (section 4 of RFC 4648), for
  `Buffer.from(text).toString('base64')`;
- `Uri`: `encodeURIComponent` over its unreserved set, form encoding for
  `URLSearchParams`, and a simplified query-string reader for
  `searchParams.get`;
- `MinSec`: the `m:ss` clock text repeated in five components;
- `Tracks`: the unified track record and the de-duplicated track lists;
- `Sorting`: an insertion sort that stands in for the `orderBy` of the
  database queries.

Outside inputs are parameters:
- the clock is a `now` argument, and `nowAfter` for a second reading taken
  after a request has been answered;
- `Math.random` is a sequence of draws within the source's bounds;
- a network or database answer is an `Option` or a small answer datatype,
  where `None` stands for a failed or non-ok request;
- the store is an in-memory sequence.

## Model

| member | source | states |
|---|---|---|
| PreviewUrl.ExpMatch | lib/refresh-preview-url.ts:48 | the pattern `exp=(\d+)` finds the first `exp=` followed by digits and yields the whole digit run after it; `None` when there is no such place |
| PreviewUrl.ExpMatchFront | lib/refresh-preview-url.ts:48 | a token that starts with `exp=<digits>` followed by a non-digit reads exactly those digits |
| PreviewUrl.GetHdnea | lib/refresh-preview-url.ts:43-46 | the `hdnea` parameter counts only when it is present and non-empty |
| PreviewUrl.ExpiryMs | lib/refresh-preview-url.ts:38-50 | for a CDN url carrying a token, the expiry is 1000 times the `exp` seconds; when any part is missing there is no expiry |
| PreviewUrl.IsDeezerUrlExpired | lib/refresh-preview-url.ts:37-66 | expired iff an expiry exists and `now >= expiry - 300000`; otherwise not expired |
| PreviewUrl.NotDeezerNeverExpired | lib/refresh-preview-url.ts:38-40 | a url lacking `dzcdn.net` or `hdnea=` is never expired |
| PreviewUrl.NoExpNeverExpired | lib/refresh-preview-url.ts:46-65 | a token with no `exp=<digits>` never makes the url expired |
| PreviewUrl.SafetyMargin | lib/refresh-preview-url.ts:53-56 | an expiry three minutes ahead already counts as expired; one ten minutes ahead does not |
| PreviewUrl.ExpiredMonotone | lib/refresh-preview-url.ts:55-56 | once expired at `now`, the url is expired at every later time |
| PreviewUrl.CdnUrlHasToken | lib/refresh-preview-url.ts:38 | a CDN path followed by `?hdnea=` passes the first guard |
| PreviewUrl.HdneaOfSingleParam | lib/refresh-preview-url.ts:43 | the query reader returns the whole `hdnea` value when it is the url's only parameter |
| PreviewUrl.ExpiryOfCdnUrl | lib/refresh-preview-url.ts:42-50 | a concrete CDN url `path?hdnea=exp=<e>...` expires at `1000 * e` |
| PreviewUrl.RefreshPreviewUrl | lib/refresh-preview-url.ts:6-32 | an id without `deezer_` returns the current url; for a `deezer_` id, a failed lookup returns the current url, a found track returns its preview, and a track without one returns nothing |
| PreviewUrl.NonDeezerIgnoresProvider | lib/refresh-preview-url.ts:9-25 | for a non-Deezer id the result does not depend on the provider at all |
| PreviewUrl.RefreshedNonEmpty | lib/refresh-preview-url.ts:12-19 | a refreshed preview is never the empty string |
| Deezer.StripDeezerPrefix | lib/deezer.ts:77 | a leading `deezer_` is removed, exactly once; any other id is unchanged |
| Deezer.ConvertToUnifiedFormat | lib/deezer.ts:89-126 | the id is `deezer_` plus the provider id, and the name is the title; a single artist; the album title; the preview is absent iff empty and otherwise equal; the duration is 1000 times the digit value; a Deezer link; the source is Deezer; four images sized 1000, 640, 300 and 64 |
| Deezer.ImageFallbacks | lib/deezer.ts:96-117 | the 1000 image uses `cover_xl`, else `cover_big`; the 640 image `cover_big`, else `cover_medium`; the 300 image `cover_medium`, else `cover`; the 64 image `cover_small`, else `cover` |
| Deezer.StripConvertedId | lib/deezer.ts:77-91 | stripping inverts the prefixing: `strip(convert(t).id) == t.id`, and `strip("deezer_" + x) == x` |
| Deezer.ConvertedPreview | lib/deezer.ts:119 | the unified track has a playable preview iff the provider's preview is non-empty |
| Deezer.GetTrack | lib/deezer.ts:75-87 | a track is returned iff the provider answers; it is the conversion of that answer |
| Deezer.GetTrackByUnifiedId | lib/deezer.ts:75-91 | looking up a unified id asks for the same provider URL as the raw id and gives back the same converted track |
| Deezer.ConvertAll | lib/deezer.ts:72 | one converted track per result, in the same order |
| Deezer.SearchTracks | lib/deezer.ts:54-73 | a failed request gives nothing; otherwise every result is converted and none is filtered out; a missing limit means 20 |
| Deezer.SearchUrlLimit | lib/deezer.ts:54-61 | the search URL carries the form-encoded query and the limit |
| AudioProxy.GetProxyAudioUrl | lib/audio-proxy.ts:4-12 | a url without `dzcdn.net` is returned unchanged; one with it becomes `/api/audio/proxy?url=` plus its encoding |
| AudioProxy.ProxyChangesIffNeeded | lib/audio-proxy.ts:6-19 | the rewrite changes the url iff the url needs the proxy, and then it makes the url strictly longer |
| AudioProxy.NeedsAudioProxy | lib/audio-proxy.ts:17-19 | a url needs the proxy when it contains `dzcdn.net`; `ProxyChangesIffNeeded` proves the rewrite changes exactly those urls |
| AudioProxy.ProxyRoundTrip | lib/audio-proxy.ts:10-11 | the proxy path's `url` parameter decodes back to the original url |
| Spotify.FreshTokenIsCached | lib/spotify.ts:41-43 | a non-empty token is served from cache before its expiry and not at or after it; an empty token never is |
| Spotify.CacheHit | lib/spotify.ts:41-43 | the cache answers for a non-empty token while the clock is before its expiry; `FreshTokenIsCached` proves a freshly stored token is a hit until it expires |
| Spotify.BasicAuthorizationRoundTrip | lib/spotify.ts:49 | the header is `Basic ` plus the base 64 of the UTF-8 bytes of `clientId:clientSecret`, and it decodes back to that text |
| Spotify.SpotifyApi.constructor | lib/spotify.ts:35-38 | the credentials are fixed and the cache starts empty |
| Spotify.SpotifyApi.GetAccessToken | lib/spotify.ts:40-63 | a request is made iff the cache misses; a hit returns the cached token and changes nothing; a failed request returns nothing and leaves both fields as they were; a successful one stores the token and `nowAfter + expires_in * 1000`, with `nowAfter` the clock read once the endpoint has answered |
| Spotify.SpotifyApi.SearchTracks | lib/spotify.ts:65-93 | the request uses the token and the URL with the form-encoded query, `type=track`, the limit (20 by default) and `market=US`; all items are returned unfiltered; the cache changes as in `GetAccessToken` |
| Spotify.SpotifyApi.GetTrack | lib/spotify.ts:95-109 | no token gives nothing; otherwise the track endpoint's answer; the cache changes as in `GetAccessToken` |
| Spotify.RefreshThenReuse | lib/spotify.ts:41-60 | after a successful refresh with a positive lifetime, a second call as soon as the first has returned is served from cache with the same token |
| RoomsApi.CodeOf | app/api/rooms/route.ts:10-13 | the code has one character per draw, and character `i` is `chars[r_i]` |
| RoomsApi.CodeOfAlphabet | app/api/rooms/route.ts:9-13 | every character of a code is a capital letter or a digit, the alphabet `chars` |
| RoomsApi.GenerateRoomCode | app/api/rooms/route.ts:9-16 | the loop builds exactly six characters, the code the draws spell |
| RoomsApi.RoomStore.FindFreeCode | app/api/rooms/route.ts:77-88 | the result is the first attempt whose code no stored room has; when every given attempt is taken, there is none |
| RoomsApi.RoomStore.Post | app/api/rooms/route.ts:63-118 | without a user id: 401 and nothing is stored; a signed-in caller is never refused. The drawn codes are tried in turn: the room gets the first one no room has, every attempt before it being taken, and `OutOfDraws` comes only when every attempt was taken. The room is appended with status `WAITING`, hosted by the caller, 8 players and `{}` settings by default; codes stay unique |
| RoomsApi.FilterListed | app/api/rooms/route.ts:21-26 | a room is kept iff its status is `WAITING`, `SELECTING` or `PLAYING`, as many times as it occurs |
| RoomsApi.NewerFirstIsOrder | app/api/rooms/route.ts:47-49 | newest first is a total, transitive order |
| RoomsApi.ListRooms | app/api/rooms/route.ts:19-52 | exactly the listed rooms, each as often as in the store, newest first |
| Sorting.Sort | app/api/playlists/route.ts:43-47 | the result is sorted by the given total order and is a permutation of the input |
| PlaylistsApi.ParseCount | app/api/playlists/route.ts:13-14 | an absent or empty parameter means the default; otherwise the parameter must be a decimal count |
| PlaylistsApi.FilterMatching | app/api/playlists/route.ts:16-25 | kept iff published and approved and, for a non-empty search, the name or description contains it, ignoring case; a kept playlist occurs as often as in the store |
| PlaylistsApi.NoSearchKeepsAll | app/api/playlists/route.ts:20 | an absent or empty search keeps every published, approved playlist |
| PlaylistsApi.ListOrderIsOrder | app/api/playlists/route.ts:43-47 | official first, then by rating, then newest, is a total, transitive order |
| PlaylistsApi.Window | app/api/playlists/route.ts:48-49 | skip `offset`, take at most `limit`, in order |
| PlaylistsApi.Ordered | app/api/playlists/route.ts:16-47 | every matching playlist, sorted in listing order |
| PlaylistsApi.ListPlaylists | app/api/playlists/route.ts:9-66 | the page is the window of the ordered matches, `total` counts all matches, and `hasMore` holds iff `offset + limit < total`; limit 20 and offset 0 by default |
| PlaylistsApi.PageOrdered | app/api/playlists/route.ts:43-49 | a page is in listing order |
| PlaylistsApi.HasMoreIffNextPage | app/api/playlists/route.ts:57 | `hasMore` holds iff the next page has entries |
| PlaylistsApi.PagesTile | app/api/playlists/route.ts:48-49 | consecutive pages join into one larger page: nothing is skipped and nothing shown twice |
| PlaylistsApi.NormalizeDescription | app/api/playlists/route.ts:92 | the description is trimmed; a blank one is stored as null |
| PlaylistsApi.Post | app/api/playlists/route.ts:69-122 | 401 without a user id; then 400 for a missing or blank name; a playlist is created iff both pass, and only then does the store change. The new playlist has the trimmed name and normalised description, is owned by the caller, is not official, is published and approved |
| PlaylistsApi.CreatedTrimmed | app/api/playlists/route.ts:89-97 | the stored name is non-empty and trimming it or the description again changes nothing |
| PlaylistsApi.CreatedIsListed | app/api/playlists/route.ts:16-25 | a created playlist is stored and matches both an empty search and a search for its own name |
| MinSec.FormatParseRoundTrip | components/Game/GamePlay.tsx:278-282 | the `m:ss` text reads back as the seconds it was made from, so `60 * minutes + seconds == s` |
| MinSec.FormatInjective | components/Game/GamePlay.tsx:278-282 | different numbers of seconds never show the same text |
| MinSec.DurationWholeSeconds | app/playlists/create/page.tsx:117-122 | a duration shows its whole seconds: it reads back as `floor(ms / 1000)` |
| GamePlay.FormatTimeReadsBack | components/Game/GamePlay.tsx:278-282 | the countdown text reads back as the remaining seconds |
| GamePlay.Tick | components/Game/GamePlay.tsx:120-130 | if `timeRemaining - 1 <= 0` the time becomes 0, playing stops and the round ends; otherwise the time drops by one; nothing else changes |
| GamePlay.TickNRemaining | components/Game/GamePlay.tsx:119-131 | after `n` ticks from `t >= 0`, `max(t - n, 0)` seconds remain, never a negative count; only the time and the playing flag change |
| GamePlay.FindParticipant | components/Game/GamePlay.tsx:285 | the first participant whose user has the id, or none when no participant has it |
| GamePlay.AddGuess | components/Game/GamePlay.tsx:251-261 | the guess is appended at the end; the guesser's round score grows by its points; every other score stays |
| GamePlay.AddGuessScore | components/Game/GamePlay.tsx:284-288 | after a guess, the guesser's shown score is the stored score plus the new round points, and every other player's is unchanged |
| GamePlay.PlayerScore | components/Game/GamePlay.tsx:284-288 | the participant's stored score plus the round points, 0 for an unknown id; `AddGuessScore` proves a guess moves only the guesser's score, by its points |
| GamePlay.RecentGuesses | components/Game/GamePlay.tsx:523 | at most the last five guesses, newest first |
| GamePlay.Reverse | components/Game/GamePlay.tsx:523 | the same elements in the opposite order |
| GamePlay.GamePlayView.constructor | components/Game/GamePlay.tsx:54-61 | no round loaded, empty guess inputs, nothing guessed or in flight |
| GamePlay.GamePlayView.CanSubmit | components/Game/GamePlay.tsx:223 | the guard of a guess: a loaded round, nothing in flight, text that is not blank; `SubmitGuess` sends a request exactly when it holds |
| GamePlay.GamePlayView.GetPlayerScore | components/Game/GamePlay.tsx:284-288 | `PlayerScore` on the view's participants and round; `AddGuessScore` carries its property |
| GamePlay.GamePlayView.OnTick | components/Game/GamePlay.tsx:119-131 | without a round nothing happens; otherwise the state becomes the tick of the old one |
| GamePlay.GamePlayView.SubmitGuess | components/Game/GamePlay.tsx:222-275 | nothing is sent without a round, while a guess is in flight or for blank text. Otherwise the trimmed text is sent with the current time. An accepted guess is appended, the round score grows, that input is cleared and the flag set; a refused one changes nothing |
| GamePlay.GamePlayView.RecordGuess | components/Game/GamePlay.tsx:242-267 | the ok branch: the guessed flag of that type is raised, the guess is appended and its points added to the guesser's round score, the input of that type is cleared, and nothing else changes |
| GamePlay.GamePlayView.NextSong | components/Game/GamePlay.tsx:69-90 | nothing at all for a player who is not the host; a failure or the end of the game changes nothing; a new round replaces the state and resets the guesses, and plays when it has a preview |
| GamePlay.GamePlayView.ToggleAudio | components/Game/GamePlay.tsx:210-220 | with a round and an audio element, the playing flag flips; otherwise nothing changes |
| GamePlay.GamePlayView.AudioEnded | components/Game/GamePlay.tsx:204-207 | the end of playback clears the playing flag |
| Tracks.AddTrackKeepsUnique | components/Game/PlaylistManager.tsx:23-27 | adding keeps ids unique and the track is then listed |
| Tracks.AddTrackIdempotent | components/Game/PlaylistManager.tsx:23-27 | adding the same track twice is adding it once |
| Tracks.RemoveIdMembers | components/Game/PlaylistManager.tsx:29-34 | after removal no track with the id is left, and every other track stays |
| Tracks.RemoveIdAppend | components/Game/PlaylistManager.tsx:29-34 | removal keeps the remaining tracks in their order |
| Tracks.AddThenRemove | app/playlists/create/page.tsx:26-34 | removing a just-added track gives back the earlier list |
| Tracks.RemoveIdKeepsUnique | app/playlists/create/page.tsx:32-34 | removal keeps ids unique |
| PlaylistManager.Swap | components/Game/PlaylistManager.tsx:70 | the two positions are exchanged and every other one is kept |
| PlaylistManager.ShuffledPermutes | components/Game/PlaylistManager.tsx:66-72 | with draws `j <= i`, the shuffle keeps the length and the multiset of tracks |
| PlaylistManager.ShuffledKeepsUnique | components/Game/PlaylistManager.tsx:66-72 | shuffling keeps ids unique |
| PlaylistManager.ShortListUnchanged | components/Game/PlaylistManager.tsx:68 | a list of at most one track is left as it is |
| PlaylistManager.FisherYates | components/Game/PlaylistManager.tsx:67-71 | the in-place swap loop over the array leaves it equal to the shuffle of its old contents, a permutation of them |
| PlaylistManager.PlaylistManagerView.HandleTrackSelect | components/Game/PlaylistManager.tsx:23-27 | the track is appended unless its id is listed, and re-adding changes nothing |
| PlaylistManager.PlaylistManagerView.HandleRemoveTrack | components/Game/PlaylistManager.tsx:29-35 | every track with the id goes, the rest stay in order, and the preview stops if it was that track |
| PlaylistManager.PlaylistManagerView.PlayPreview | components/Game/PlaylistManager.tsx:37-64 | nothing without a preview; the same track stops; another track becomes the playing one |
| PlaylistManager.PlaylistManagerView.PreviewStopped | components/Game/PlaylistManager.tsx:57-63 | the end or failure of playback clears the playing track |
| PlaylistManager.PlaylistManagerView.ShufflePlaylist | components/Game/PlaylistManager.tsx:66-73 | the list becomes its shuffle, a permutation with unique ids; a list of at most one is unchanged |
| PlaylistManager.PlaylistManagerView.Clear | components/Game/PlaylistManager.tsx:166 | the list becomes empty and the preview is left as it was |
| PlaylistManager.StartAndNoteExclusive | components/Game/PlaylistManager.tsx:118-260 | the start button and the one-more-song note never show together; with one track the host sees only the note; the start button comes with the shuffle button |
| PlaylistManager.PlaylistManagerView.ShowsStart | components/Game/PlaylistManager.tsx:246-257 | the host's start button, for two or more tracks when a start handler is given; `StartAndNoteExclusive` relates it to the other two |
| PlaylistManager.PlaylistManagerView.ShowsOneMoreNote | components/Game/PlaylistManager.tsx:260 | the host's note asking for one more song, for exactly one track; never with the start button (`StartAndNoteExclusive`) |
| PlaylistManager.PlaylistManagerView.ShowsShuffle | components/Game/PlaylistManager.tsx:152 | the shuffle button, for more than one track; it comes with every start button (`StartAndNoteExclusive`) |
| CreatePlaylistPage.CreateCheck | app/playlists/create/page.tsx:53-67 | the session is checked first, then the name, then the track count; only a signed-in user with a name and at least five tracks is ready |
| CreatePlaylistPage.CreateRequest | app/playlists/create/page.tsx:78-81 | the request carries the trimmed name, and the trimmed description or nothing when it is blank |
| CreatePlaylistPage.RequestAcceptedAsSent | app/api/playlists/route.ts:82-97 | a request the page sends is never refused for its name, and the route stores exactly the name and description the page sent |
| CreatePlaylistPage.CreatePlaylistView.HandleAddTrack | app/playlists/create/page.tsx:26-30 | appended only if the id is not listed; ids stay unique |
| CreatePlaylistPage.CreatePlaylistView.HandleRemoveTrack | app/playlists/create/page.tsx:32-34 | the id goes and the rest keep their order; the preview keeps playing |
| CreatePlaylistPage.CreatePlaylistView.TogglePreview | app/playlists/create/page.tsx:36-51 | nothing without a preview; the same track stops; another track becomes the playing one |
| CreatePlaylistPage.CreatePlaylistView.PreviewStopped | app/playlists/create/page.tsx:49-50 | the end or failure of playback clears the playing track |
| CreatePlaylistPage.CreatePlaylistView.EnabledIffReady | app/playlists/create/page.tsx:291 | for a signed-in user, when nothing is being created, the button is enabled exactly when the checks pass |
| CreatePlaylistPage.CreatePlaylistView.CreateDisabled | app/playlists/create/page.tsx:291 | the Create button is disabled while creating, for a blank name or fewer than five tracks; `EnabledIffReady` ties it to the handler's checks |
| CreatePlaylistPage.CreatePlaylistView.HandleCreatePlaylist | app/playlists/create/page.tsx:53-115 | a failed check sends nothing and redirects to sign-in or alerts with its message. Otherwise the request is sent; a refusal alerts with the route's error or the fallback; an accepted playlist gets its tracks and navigates to its page, or alerts if adding songs fails |
| TrackSelection.UserSelection | components/Game/TrackSelection.tsx:58 | the first selection made by the user, or none when the user has made none |
| TrackSelection.ToTrack | components/Game/TrackSelection.tsx:61-73 | the id is the stored song id, with a single artist; the album is `''` when missing; one 300 by 300 image when there is an image url, otherwise none; the duration is 0 when missing |
| TrackSelection.MissingDurationShowsZero | components/Game/TrackSelection.tsx:71 | a song without a duration shows `0:00` |
| TrackSelection.AllShowReadyIffPicked | components/Game/TrackSelection.tsx:293 | every participant badge shows Ready exactly when every player id is among the pickers |
| TrackSelection.ReadyCountExact | components/Game/TrackSelection.tsx:177-178 | with distinct players and one pick each by a participant, the count comparison holds iff every participant shows Ready |
| TrackSelection.ReadyLetsHostStart | components/Game/TrackSelection.tsx:178-179 | when everyone in a game with players is ready, the host may start and no one else may |
| TrackSelection.AllPlayersReady | components/Game/TrackSelection.tsx:177-178 | the pick count equals the participant count; `ReadyCountExact` proves this is every participant showing Ready |
| TrackSelection.CanHostStart | components/Game/TrackSelection.tsx:179 | the host with at least one pick may start; `ReadyLetsHostStart` proves a ready game lets the host and nobody else start |
| TrackSelection.HasSelected | components/Game/TrackSelection.tsx:293 | a participant shows Ready when some pick carries their id; `AllShowReadyIffPicked` and `ReadyCountExact` relate it to the counts |
| TrackSelection.HostMessage | components/Game/TrackSelection.tsx:332-338 | the three host status lines with the selection and participant counts |
| TrackSelection.TrackSelectionView.LoadSelections | components/Game/TrackSelection.tsx:50-82 | a loaded list replaces the selections, and the user's own selection becomes the selected track; a failure changes nothing |
| TrackSelection.TrackSelectionView.HandleTrackSelect | components/Game/TrackSelection.tsx:89-120 | a saved pick becomes the selected track and the selections are reloaded; a refusal alerts with the route's error or the fallback and changes nothing; submitting ends in every case |
| TrackSelection.TrackSelectionView.HandleRemoveSelection | components/Game/TrackSelection.tsx:122-138 | a successful removal clears the selected track; a failed one keeps it |
| TrackSelection.TrackSelectionView.PlayPreview | components/Game/TrackSelection.tsx:140-167 | nothing without a preview; the same track stops; another track becomes the playing one |
| TrackSelection.TrackSelectionView.PreviewStopped | components/Game/TrackSelection.tsx:160-166 | the end or failure of playback clears the playing track |
| TrackSelection.TrackSelectionView.SearchSelection | components/Game/TrackSelection.tsx:281 | the search box is given the selected track alone, or nothing |
| RoomsPage.FilteredRooms | app/rooms/page.tsx:112-116 | a room is kept iff the lowercased query is in its lowercased name, code or host name, as many times as it occurs |
| RoomsPage.EmptyQueryKeepsAll | app/rooms/page.tsx:112-116 | an empty query keeps every room, in order |
| RoomsPage.NarrowingQuery | app/rooms/page.tsx:112-116 | extending the query never brings in a room the shorter query left out |
| RoomsPage.DisabledLabel | app/rooms/page.tsx:310-313 | finished first, then full, then playing, else not available |
| RoomsPage.NotAvailableReason | app/rooms/page.tsx:240-313 | a room shown as not available is neither full nor ended, and its game is not in a known state, or it has no game and is not waiting |
| RoomsPage.JoinableNotEndedOrFull | app/rooms/page.tsx:240-244 | a joinable room with a game is not full |
| RoomsPage.CanJoin | app/rooms/page.tsx:242-244 | with a current game, the game is selecting tracks and has a free place; otherwise the room is waiting; `JoinableNotEndedOrFull` and `NotAvailableReason` relate it to the disabled label |
| RoomsPage.StatusText | app/rooms/page.tsx:133-146 | the four statuses map to their labels and any other status is shown as it is |
| RoomsPage.KnownStatusTextsDistinct | app/rooms/page.tsx:133-146 | the four labels differ from each other |
| RoomsPage.ShownStatus | app/rooms/page.tsx:257-259 | the card shows its current game's status or the room's, the room's when there is no game, and an empty status only when both are empty |
| RoomsPage.StatusColor | app/rooms/page.tsx:118-131 | grey exactly for a status other than waiting, selecting or playing |
| RoomsPage.AgeOf | app/rooms/page.tsx:148-157 | with `d = floor(ms / 60000)`: below 1 just now; below 60 minutes; below 1440 hours `floor(d / 60)`; else days `floor(d / 1440)` |
| RoomsPage.AgeMonotone | app/rooms/page.tsx:148-157 | a room's age never shrinks as time goes on, and the bucket only moves towards days |
| RoomsPage.FormatTimeAgoReadsBack | app/rooms/page.tsx:148-157 | the age text is `Just now` exactly under a minute; otherwise a numeral, the unit of the largest bucket that fits and ` ago`, and the numeral reads back to the age in that unit, rounded down |
| RoomsPage.FormatTimeAgo | app/rooms/page.tsx:148-157 | the text of the room's age bucket; `FormatTimeAgoReadsBack` and `AgeMonotone` carry its properties |
| RoomsPage.JoinRequestFor | app/rooms/page.tsx:86-97 | no request for a blank code; otherwise the trimmed code in the path and the session's name, or `Anonymous` |
| RoomsPage.CardJoinIgnoresRoom | app/rooms/page.tsx:298-303 | as written, a card's Join button with nothing typed sends no request, though the room has a code |
| RoomsPage.CardJoinUsesRoomCode | app/rooms/page.tsx:298-303 | corrected, a card's Join button asks to join that card's room |
| RoomsPage.JoinOutcome | app/rooms/page.tsx:100-109 | the page navigates exactly for an accepted join, to `/room/` plus the trimmed code; every failure alerts with a non-empty message, the route's own error when it gave one |
| RoomsPage.RouteAnswerHasNoRoomsField | app/rooms/page.tsx:63 | as written, the page finds no `rooms` field in what the listing route sends |
| RoomsPage.ListingRow | app/api/rooms/route.ts:21-52 | a row of the listing as written carries the room's code and `_count.games`, the number of games with participants, and no `games` |
| RoomsPage.IntendedRow | app/api/rooms/route.ts:27-46 | corrected, a row also carries every game of the room with its participants |
| RoomsPage.CurrentGameOf | app/rooms/page.tsx:240 | `room.games[0]` fails exactly for a row without `games`; otherwise it is the newest game, if any |
| RoomsPage.ListingCardThrows | app/rooms/page.tsx:240 | every card of the listing as written fails at `room.games[0]`; a corrected row never does |
| RoomsPage.RoomOfRow | app/rooms/page.tsx:238-244 | a card can show a row exactly when it carries its games, and then shows that row's code and games |
| RoomsPage.RoomsOfRows | app/rooms/page.tsx:63 | a list of rows can be shown exactly when every row carries its games, row for row |
| RoomsPage.ListingRowsUnreadable | app/api/rooms/route.ts:27-52 | even read as the bare array, a non-empty listing as the route writes it cannot be shown |
| RoomsPage.RouteAnswerRead | app/api/rooms/route.ts:52 | corrected on both sides, the page reads back exactly the listed rooms from the bare array, and from a `{ rooms }` object too |
| RoomsPage.RowOfRoomReadsBack | app/rooms/page.tsx:238-244 | a card shows exactly the room its corrected row came from |
| RoomsPage.RoomsPageView.InitSearch | app/rooms/page.tsx:50-55 | a non-empty `search` parameter becomes the query; otherwise the query stays |
| RoomsPage.RoomsPageView.FetchRooms | app/rooms/page.tsx:58-70 | a readable answer replaces the rooms; loading ends in every case |
| RoomsPage.RoomsPageView.Shown | app/rooms/page.tsx:112-116 | the shown rooms are exactly the stored ones that match the query |
| RoomsPage.RoomsPageView.HandleJoinRoom | app/rooms/page.tsx:86-110 | nothing for a blank code; otherwise the request for the trimmed code, navigating to the room on success and alerting on failure |
| RoomsPage.RoomsPageView.JoinFromCard | app/rooms/page.tsx:298-303 | corrected card join: the code field shows the room's code and the request is for that room |
| PlaylistsPage.FilteredPlaylists | app/playlists/page.tsx:62-65 | kept iff the lowercased query is in the lowercased name or description |
| PlaylistsPage.FilteredPlaylistsCounts | app/playlists/page.tsx:62-65 | a kept playlist occurs in the result as often as in the list, any other not at all |
| PlaylistsPage.EmptyQueryKeepsAll | app/playlists/page.tsx:62-65 | an empty query keeps every playlist, in order |
| PlaylistsPage.FilterAgreesWithRoute | app/playlists/page.tsx:62-65 | on listed playlists the page filter keeps the same playlists as the route's search |
| PlaylistsPage.RenderStars | app/playlists/page.tsx:71-78 | five stars; star `i` is filled iff `i < floor(rating)` |
| PlaylistsPage.FilledStars | app/playlists/page.tsx:71-78 | the number of filled stars is `floor(rating)` clamped to 0..5 |
| PlaylistsPage.StarsMonotone | app/playlists/page.tsx:71-78 | a higher rating never fills fewer stars |
| PlaylistsPage.SongCount | app/playlists/page.tsx:178 | the counted songs when non-zero, otherwise the length of the song list |
| PlaylistsPage.SongCountZeroIffNone | app/playlists/page.tsx:178 | a card reads zero songs exactly when none are counted and none listed, and a count that agrees with the list shows its length |
| PlaylistsPage.ShowsStars | app/playlists/page.tsx:181-186 | the stars and the rating count are shown only for a playlist with at least one rating |
| PlaylistsPage.PlaylistsPageView.FetchPlaylists | app/playlists/page.tsx:44-60 | a loaded list replaces the playlists; loading ends in every case |
| PlaylistsPage.PlaylistsPageView.Shown | app/playlists/page.tsx:62-65 | the shown playlists are exactly the stored ones kept by the query |
| MusicSearch.SearchUrlCarriesQuery | components/Game/MusicSearch.tsx:40 | the request's `q` parameter is the encoded query and decodes back to it |
| MusicSearch.Results | components/Game/MusicSearch.tsx:46-58 | an ok answer gives its tracks, or none when it has none; a refusal or an error leaves the results empty |
| MusicSearch.MusicSearchView.SearchTracks | components/Game/MusicSearch.tsx:27-63 | a blank query clears the results and sends nothing; otherwise the search URL is sent and the results are the answer's |
| MusicSearch.MusicSearchView.HandleSearch | components/Game/MusicSearch.tsx:65-74 | searching uses the typed query |
| MusicSearch.MusicSearchView.AddResult | components/Game/MusicSearch.tsx:139-141 | a result is handed to the parent iff it is not already selected |
| MusicSearch.MusicSearchView.IsTrackSelected | components/Game/MusicSearch.tsx:139-141 | a result is selected when its id is among the selected tracks; `AddResult` hands a result on exactly when it is not |
| MusicSearch.MusicSearchView.SearchDisabled | components/Game/MusicSearch.tsx:165 | the Search button is disabled while loading or for a blank query |
| MusicSearch.MusicSearchView.SearchEnabledIffSends | components/Game/MusicSearch.tsx:165 | with no search in flight, the button is enabled exactly for a query that is not blank, the queries `HandleSearch` sends, and stays disabled only for white space |
| MusicSearch.MusicSearchView.PlayPreview | components/Game/MusicSearch.tsx:76-129 | nothing without a preview; the same track stops; a new track plays only when playback starts, otherwise nothing plays |
| MusicSearch.MusicSearchView.PreviewStopped | components/Game/MusicSearch.tsx:120-128 | the end or failure of playback clears the playing track |
| Base64.DecodeEncode | lib/spotify.ts:49 | decoding the base 64 encoding gives the bytes back |
| Utf8.DecodeEncode | lib/spotify.ts:49 | decoding the UTF-8 encoding gives the text back |
| Uri.DecodeEncode | lib/audio-proxy.ts:11 | `decodeURIComponent(encodeURIComponent(s)) == s` |
| Uri.EncodedLength | lib/audio-proxy.ts:11 | the encoding is never shorter than the text, and is the text itself iff every character is unreserved |

## Left out

- Exceptions: a thrown `new URL` on a malformed url is not modelled. The query reader returns the first matching parameter without percent-decoding it, as a simplified `URLSearchParams.get`.
- The `exp=(\d+)` regular expression is written as a scan for the first `exp=` followed by digits, not as a general regular-expression engine.
- Numbers: `parseInt` is modelled on decimal digit strings only, and a value that is not one is refused. NaN, partial parses, signs and floating point are not modelled. Ratings are reals; only their floor matters on the page.
- `toLowerCase` folds ASCII letters only. Prisma's case-insensitive `contains` is modelled the same way.
- Durations and times are natural numbers; negative seconds in `formatTime` are not modelled.
- Randomness: `Math.random` becomes a sequence of draws within the bounds the source uses. `RoomsApi.RoomStore.Post` returns `OutOfDraws` when the given draws run out, where the source keeps drawing until it finds a free code.
- Network and persistence: every `fetch`, the Deezer and Spotify HTTP APIs, Prisma and NextAuth are left out. Their answers are parameters, the store is a sequence, and the database-assigned ids, defaults and timestamps are arguments.
- Prisma's `include` and `_count` shapes and the order of rows that tie on every `orderBy` key are not modelled.
- `RoomsPage.RoomRow`: the host's `image` and the room columns no card reads are not modelled.
- `JSON.stringify` of room settings is left out; settings are a string, `{}` by default.
- React: asynchronous updates, renders in between, effects, polling every ten seconds and the loading skeletons are not modelled. Each handler is one atomic step from one state to the next.
- `CreatePlaylistPage.CreatePlaylistView.HandleCreatePlaylist`: the `isCreating` flag that is raised only while the requests are in flight is not modelled; the handler changes no field.
- For example, `MusicSearch.MusicSearchView.PlayPreview` takes the outcome of `audio.play()` as a parameter and does not model the moment before the play promise settles.
- Browser audio: `HTMLAudioElement` creation, pausing and volume are left out; only the `playingTrack` and `isPlaying` fields are kept.
- Console logging, including the count of Deezer results with previews, is left out.
- JSX layout is left out, except the conditions that decide whether a button is enabled, a label or a field.
- The live-score panel's `sort`, which reorders the participants prop in place, is left out.
- `RoomsApi.CodeOf`: that different draws give different codes is not stated.
- `PlaylistsApi.Post`: a `name` that is present but not a string (where `name?.trim()` would throw) is not modelled; the body's fields are strings or absent.
- `MusicSearch.MusicSearchView.constructor`: the `isLoading` prop is accepted and ignored by the component, so it is not a parameter.
- `TrackSelection.TrackSelectionView.HandleRemoveSelection`: the component does not reload the selections after a removal, and the model does not either.
- `PlaylistsPage.SongCount`: a playlist whose `songs` field is absent is modelled as an empty list.
- The game routes under `app/api/games/`, the room routes under `app/api/rooms/[code]/`, the Spotify search and track routes and the audio proxy routes are not part of this model. They are either thin wrappers over the modelled helpers or byte forwarding.
- The modal components, layout, navigation bar, sign-in button, home page, room page and playlist detail page are not part of this model. They only render, fetch and route.
- `components/Game/GameSongsSummary.tsx` is a single label choice and is not part of this model.

## Findings

| source | as written | input that shows it | evidently intended | confidence | as-written member | corrected member |
|---|---|---|---|---|---|---|
| app/rooms/page.tsx:298-303 | a room card's Join button calls `setJoinCode(room.code)` and then `handleJoinRoom()` in the same handler, and `handleJoinRoom` reads the `joinCode` of the current render | the join-code field is empty and Join is pressed on a waiting room with code `ABC123`: `joinCode.trim()` is `""`, so no request is sent | the card joins its own room, `/api/rooms/ABC123/join` | high, not executed | RoomsPage.CardJoinAsWritten (shown by RoomsPage.CardJoinIgnoresRoom) | RoomsPage.CardJoin (proved by RoomsPage.CardJoinUsesRoomCode, used by RoomsPage.RoomsPageView.JoinFromCard) |
| app/rooms/page.tsx:63 | the page stores `data.rooms` of the listing answer, while `GET /api/rooms` answers with the bare array (app/api/rooms/route.ts:52) | any successful listing, for example `[]`: `[].rooms` is `undefined`, so `rooms` becomes undefined and the filter in the next render throws | the page reads the array the route sends. That alone does not make the cards work: the route must also include the rooms' games (next row) | high, not executed | RoomsPage.RoomsFieldAsWritten (shown by RoomsPage.RouteAnswerHasNoRoomsField) | RoomsPage.RoomsOfAnswer (proved by RoomsPage.RouteAnswerRead, used by RoomsPage.RoomsPageView.FetchRooms) |
| app/rooms/page.tsx:240 | each room card reads `room.games[0]`, and the listing route includes only `host` and `_count.games`, not `games` (app/api/rooms/route.ts:27-46) | a listing with one waiting room, read as the bare array: its row has no `games`, so `undefined[0]` throws while the card renders | the route includes each room's games with their participants, newest first, so that a card finds its current game | high, not executed | RoomsPage.ListingRow (shown by RoomsPage.ListingCardThrows and RoomsPage.ListingRowsUnreadable) | RoomsPage.IntendedRow (proved by RoomsPage.RouteAnswerRead, read by RoomsPage.RoomsOfAnswer in RoomsPage.RoomsPageView.FetchRooms) |
