/** The playlist editor of `app/playlists/create/page.tsx`: the track list
    (add once, remove), the preview toggle, the checks made before creating,
    the state of the Create button, and the two requests that create a
    playlist and add its songs. Server answers are parameters; navigation and
    alerts are returned as outcomes. */
module CreatePlaylistPage {
  import opened Wrappers
  import opened JsText
  import opened Tracks
  import PlaylistsApi

  /** The fewest tracks a playlist is created with. */
  const MinTracks: nat := 5

  const SignInPath: string := "/auth/signin"

  const NameMessage: string := "Please enter a playlist name"
  const TracksMessage: string := "Please add at least 5 tracks to your playlist"
  const CreateFailed: string := "Failed to create playlist"
  const SongsFailed: string := "Failed to add songs to playlist"

  /** What `handleCreatePlaylist` decides before sending anything. */
  datatype Check = NeedsSignIn | NameMissing | TooFewTracks | Ready

  /** The checks, in order: session, then name, then track count. */
  function CreateCheck(signedIn: bool, playlistName: string, trackCount: nat): (r: Check)
    ensures r == Ready <==> signedIn && !IsBlank(playlistName) && trackCount >= MinTracks
    ensures !signedIn ==> r == NeedsSignIn
    ensures signedIn && IsBlank(playlistName) ==> r == NameMissing
    ensures r == TooFewTracks ==> signedIn && !IsBlank(playlistName) && trackCount < MinTracks
  {
    if !signedIn then NeedsSignIn
    else if Trim(playlistName) == "" then NameMissing
    else if trackCount < MinTracks then TooFewTracks
    else Ready
  }

  /** The body of the create request: the trimmed name, and the trimmed
      description or nothing when it is blank. */
  function CreateRequest(playlistName: string, description: string): (r: PlaylistsApi.CreateBody)
    ensures r.name == Some(Trim(playlistName))
    ensures r.description.None? <==> IsBlank(description)
    ensures r.description.Some? ==> r.description.value == Trim(description)
  {
    PlaylistsApi.CreateBody(Some(Trim(playlistName)),
                            if Trim(description) != "" then Some(Trim(description)) else None)
  }

  /** The page and the route agree: a request the page sends is never refused
      for its name, and the route stores exactly the name and description the
      page sent, since trimming twice is trimming once. */
  lemma RequestAcceptedAsSent(playlistName: string, description: string, store: seq<PlaylistsApi.Playlist>,
                              userId: string, id: string, now: int)
    requires !IsBlank(playlistName) && userId != ""
    ensures PlaylistsApi.Post(store, Some(userId), CreateRequest(playlistName, description), id, now).0.Created?
    ensures PlaylistsApi.Post(store, Some(userId), CreateRequest(playlistName, description), id, now).0.playlist.name
            == Trim(playlistName)
    ensures PlaylistsApi.Post(store, Some(userId), CreateRequest(playlistName, description), id, now).0.playlist.description
            == CreateRequest(playlistName, description).description
  {
    TrimIdempotent(playlistName);
    TrimIdempotent(description);
  }

  /** The answer to the create request: the new playlist's id, or a refusal
      with the route's error text if it sent one. */
  datatype CreateAnswer = Accepted(playlistId: string) | Refused(error: Option<string>)

  /** The answer to the add-songs request. */
  datatype SongsAnswer = SongsAdded | SongsRefused(error: Option<string>)

  datatype Outcome = Navigate(path: string) | Alert(message: string)

  /** `error.error || fallback`. */
  function ErrorText(error: Option<string>, fallback: string): string {
    if error.Some? && error.value != "" then error.value else fallback
  }

  class CreatePlaylistView {
    const signedIn: bool
    var playlistName: string
    var description: string
    var selectedTracks: seq<Track>
    var isCreating: bool
    var playingTrack: Option<string>

    ghost predicate Valid()
      reads this
    {
      UniqueIds(selectedTracks)
    }

    constructor(signedIn: bool)
      ensures this.signedIn == signedIn && Valid()
      ensures playlistName == "" && description == "" && selectedTracks == []
      ensures !isCreating && playingTrack == None
    {
      this.signedIn := signedIn;
      playlistName := "";
      description := "";
      selectedTracks := [];
      isCreating := false;
      playingTrack := None;
    }

    /** `handleAddTrack(track)`: appended unless its id is listed. */
    method HandleAddTrack(t: Track)
      requires Valid()
      modifies this
      ensures Valid()
      ensures selectedTracks == AddTrack(old(selectedTracks), t) && HasId(selectedTracks, t.id)
      ensures HasId(old(selectedTracks), t.id) ==> selectedTracks == old(selectedTracks)
      ensures playingTrack == old(playingTrack) && playlistName == old(playlistName) && description == old(description)
    {
      AddTrackKeepsUnique(selectedTracks, t);
      selectedTracks := AddTrack(selectedTracks, t);
    }

    /** `handleRemoveTrack(trackId)`: the other tracks keep their order; a
        running preview of it is not stopped. */
    method HandleRemoveTrack(trackId: string)
      requires Valid()
      modifies this
      ensures Valid()
      ensures selectedTracks == RemoveId(old(selectedTracks), trackId) && !HasId(selectedTracks, trackId)
      ensures playingTrack == old(playingTrack) && playlistName == old(playlistName) && description == old(description)
    {
      RemoveIdKeepsUnique(selectedTracks, trackId);
      RemoveIdMembers(selectedTracks, trackId);
      selectedTracks := RemoveId(selectedTracks, trackId);
    }

    /** `togglePreview(track)`. */
    method TogglePreview(t: Track)
      modifies this
      ensures selectedTracks == old(selectedTracks)
      ensures !HasPreview(t) ==> playingTrack == old(playingTrack)
      ensures HasPreview(t) && old(playingTrack) == Some(t.id) ==> playingTrack == None
      ensures HasPreview(t) && old(playingTrack) != Some(t.id) ==> playingTrack == Some(t.id)
    {
      if !HasPreview(t) {
        return;
      }
      if playingTrack == Some(t.id) {
        playingTrack := None;
        return;
      }
      playingTrack := Some(t.id);
    }

    /** The preview's `ended` or `error` event. */
    method PreviewStopped()
      modifies this
      ensures playingTrack == None && selectedTracks == old(selectedTracks)
    {
      playingTrack := None;
    }

    /** `disabled` of the Create button. */
    predicate CreateDisabled()
      reads this
    {
      isCreating || IsBlank(playlistName) || |selectedTracks| < MinTracks
    }

    /** The button is enabled exactly when a signed-in user's click would pass
        every check. */
    lemma EnabledIffReady()
      requires signedIn && !isCreating
      ensures !CreateDisabled() <==> CreateCheck(signedIn, playlistName, |selectedTracks|) == Ready
    {
    }

    /** `handleCreatePlaylist()`. A failed check sends nothing. Otherwise the
        playlist is created from `CreateRequest`; once it is accepted its
        songs are sent, and success opens the new playlist. `createAnswer` is
        `None` when the request fails, `songsAnswer` when the second one does.
        The handler is one step: the `isCreating` flag, raised only while the
        requests are in flight, is back where it was when it returns. */
    method HandleCreatePlaylist(createAnswer: Option<CreateAnswer>, songsAnswer: Option<SongsAnswer>)
        returns (createSent: Option<PlaylistsApi.CreateBody>, songsSent: Option<(string, seq<Track>)>, outcome: Outcome)
      ensures var c := CreateCheck(signedIn, playlistName, |selectedTracks|);
        && (c == NeedsSignIn ==> outcome == Navigate(SignInPath))
        && (c == NameMissing ==> outcome == Alert(NameMessage))
        && (c == TooFewTracks ==> outcome == Alert(TracksMessage))
        && (createSent.Some? <==> c == Ready)
        && (songsSent.Some? ==> c == Ready)
      ensures createSent.Some? ==> createSent.value == CreateRequest(playlistName, description)
      ensures createSent.Some? && createAnswer.None? ==> songsSent.None? && outcome == Alert(CreateFailed)
      ensures createSent.Some? && createAnswer.Some? && createAnswer.value.Refused? ==>
        songsSent.None? && outcome == Alert(ErrorText(createAnswer.value.error, CreateFailed))
      ensures createSent.Some? && createAnswer.Some? && createAnswer.value.Accepted? ==>
        var id := createAnswer.value.playlistId;
        && songsSent == Some((id, selectedTracks))
        && outcome == match songsAnswer
           case None => Alert(CreateFailed)
           case Some(SongsAdded) => Navigate("/playlists/" + id)
           case Some(SongsRefused(e)) => Alert(ErrorText(e, SongsFailed))
    {
      createSent, songsSent := None, None;
      var c := CreateCheck(signedIn, playlistName, |selectedTracks|);
      if c == NeedsSignIn {
        outcome := Navigate(SignInPath);
      } else if c == NameMissing {
        outcome := Alert(NameMessage);
      } else if c == TooFewTracks {
        outcome := Alert(TracksMessage);
      } else {
        createSent := Some(CreateRequest(playlistName, description));
        if createAnswer.None? {
          outcome := Alert(CreateFailed);
        } else if createAnswer.value.Refused? {
          outcome := Alert(ErrorText(createAnswer.value.error, CreateFailed));
        } else {
          var id := createAnswer.value.playlistId;
          songsSent := Some((id, selectedTracks));
          match songsAnswer {
            case None => outcome := Alert(CreateFailed);
            case Some(SongsAdded) => outcome := Navigate("/playlists/" + id);
            case Some(SongsRefused(e)) => outcome := Alert(ErrorText(e, SongsFailed));
          }
        }
      }
    }
  }
}
