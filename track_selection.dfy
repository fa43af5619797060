/** The track-selection step of a game (`components/Game/TrackSelection.tsx`):
    every player picks one track for the others to guess; the host may start
    once anybody has picked. Server answers are parameters of the handlers. */
module TrackSelection {
  import opened Wrappers
  import opened Tracks
  import JsText
  import GamePlay
  import MinSec

  /** A stored song as the selections route returns it; the optional fields
      may be missing. */
  datatype StoredSong = StoredSong(
    spotifyId: string,
    title: string,
    artist: string,
    album: Option<string>,
    previewUrl: Option<string>,
    imageUrl: Option<string>,
    durationMs: Option<nat>)

  /** One player's pick: `selectedBy` is the user id of the player. */
  datatype Selection = Selection(id: string, selectedBy: string, song: StoredSong)

  datatype Participant = Participant(id: string, displayName: string, user: Option<GamePlay.UserRef>)

  /** `playersWithTracks`: one selection per player who has picked. */
  function PlayersWithTracks(selections: seq<Selection>): nat {
    |selections|
  }

  /** `allPlayersReady`. */
  predicate AllPlayersReady(selections: seq<Selection>, participants: seq<Participant>) {
    PlayersWithTracks(selections) == |participants|
  }

  /** `canHostStart`. */
  predicate CanHostStart(isHost: bool, selections: seq<Selection>) {
    isHost && PlayersWithTracks(selections) > 0
  }

  /** The Ready badge of a participant: some selection is by its user; a
      participant without a user never shows Ready. */
  predicate HasSelected(selections: seq<Selection>, p: Participant) {
    p.user.Some? && exists i :: 0 <= i < |selections| && selections[i].selectedBy == p.user.value.id
  }

  /** The current user's own selection: the first one made by that user. */
  function UserSelection(selections: seq<Selection>, userId: string): (r: Option<Selection>)
    ensures r.None? <==> forall i :: 0 <= i < |selections| ==> selections[i].selectedBy != userId
    ensures r.Some? ==> exists i :: (0 <= i < |selections| && selections[i] == r.value
      && (forall j :: 0 <= j < i ==> selections[j].selectedBy != userId))
    ensures r.Some? ==> r.value.selectedBy == userId
  {
    if selections == [] then None
    else if selections[0].selectedBy == userId then Some(selections[0])
    else
      var r := UserSelection(selections[1..], userId);
      assert r.Some? ==> exists i :: (0 <= i < |selections| && selections[i] == r.value
        && (forall j :: 0 <= j < i ==> selections[j].selectedBy != userId)) by {
        if r.Some? {
          var i :| 0 <= i < |selections[1..]| && selections[1..][i] == r.value
            && (forall j :: 0 <= j < i ==> selections[1..][j].selectedBy != userId);
          assert selections[i + 1] == r.value;
          assert forall j :: 1 <= j < i + 1 ==> selections[j] == selections[1..][j - 1];
        }
      }
      r
  }

  /** The stored song as a track again: one artist, `''` for a missing album,
      one 300 by 300 cover when there is an image, 0 for a missing duration. */
  function ToTrack(song: StoredSong): (t: Track)
    ensures t.id == song.spotifyId && t.name == song.title && t.artists == [song.artist]
    ensures t.album.name == (if song.album.Some? then song.album.value else "")
    ensures song.imageUrl.None? || song.imageUrl.value == "" <==> t.album.images == []
    ensures t.album.images != [] ==> t.album.images == [Image(song.imageUrl.value, 300, 300)]
    ensures t.previewUrl == song.previewUrl
    ensures t.durationMs == (if song.durationMs.Some? then song.durationMs.value else 0)
    ensures t.source == Some(DeezerSource) && t.externalUrls == ExternalUrls(None, Some(""))
  {
    Track(song.spotifyId, song.title, [song.artist],
          Album(if song.album.Some? then song.album.value else "",
                if song.imageUrl.Some? && song.imageUrl.value != ""
                then [Image(song.imageUrl.value, 300, 300)] else []),
          song.previewUrl, ExternalUrls(None, Some("")),
          if song.durationMs.Some? then song.durationMs.value else 0,
          Some(DeezerSource))
  }

  /** A song without a duration shows as `0:00`. */
  lemma MissingDurationShowsZero(song: StoredSong)
    requires song.durationMs.None?
    ensures MinSec.FormatDuration(ToTrack(song).durationMs) == "0:00"
  {
    assert JsText.NatToString(0) == "0";
  }

  /** No two values of the sequence are equal. */
  predicate Distinct(s: seq<string>) {
    forall i, j :: 0 <= i < j < |s| ==> s[i] != s[j]
  }

  /** A sequence without repeats has as many distinct values as entries. */
  lemma {:induction false} DistinctCardinality(s: seq<string>)
    requires Distinct(s)
    ensures |set x | x in s| == |s|
  {
    if s != [] {
      var t := s[1..];
      DistinctCardinality(t);
      assert (set x | x in s) == {s[0]} + (set x | x in t) by {
        assert s == [s[0]] + t;
      }
      assert s[0] !in t;
    }
  }

  /** A subset as large as its superset is the whole of it. */
  lemma SubsetSameSize(s: set<string>, u: set<string>)
    requires s <= u && |s| == |u|
    ensures s == u
  {
    assert u == s + (u - s) && s * (u - s) == {};
    assert |u - s| == 0;
  }

  /** The user ids of those who have picked, in order. */
  function Pickers(selections: seq<Selection>): (r: seq<string>)
    ensures |r| == |selections| && forall i :: 0 <= i < |r| ==> r[i] == selections[i].selectedBy
  {
    seq(|selections|, i requires 0 <= i < |selections| => selections[i].selectedBy)
  }

  /** The participants' user ids, in order. */
  function PlayerIds(participants: seq<Participant>): (r: seq<string>)
    requires forall k :: 0 <= k < |participants| ==> participants[k].user.Some?
    ensures |r| == |participants| && forall k :: 0 <= k < |r| ==> r[k] == participants[k].user.value.id
  {
    seq(|participants|, k requires 0 <= k < |participants| => participants[k].user.value.id)
  }

  /** Every participant shows Ready exactly when all their ids are among the pickers. */
  lemma AllShowReadyIffPicked(selections: seq<Selection>, participants: seq<Participant>)
    requires forall k :: 0 <= k < |participants| ==> participants[k].user.Some?
    ensures (set x | x in PlayerIds(participants)) <= (set x | x in Pickers(selections)) <==>
      forall k :: 0 <= k < |participants| ==> HasSelected(selections, participants[k])
  {
    var ps, us := Pickers(selections), PlayerIds(participants);
    var sp, su := set x | x in ps, set x | x in us;
    if su <= sp {
      forall k | 0 <= k < |participants| ensures HasSelected(selections, participants[k]) {
        assert us[k] in su;
        assert us[k] in sp;
        var i :| 0 <= i < |ps| && ps[i] == us[k];
      }
    }
    if forall k :: 0 <= k < |participants| ==> HasSelected(selections, participants[k]) {
      forall x | x in us ensures x in ps {
        var k :| 0 <= k < |us| && us[k] == x;
        assert HasSelected(selections, participants[k]);
        var i :| 0 <= i < |selections| && selections[i].selectedBy == participants[k].user.value.id;
        assert ps[i] == x;
      }
    }
  }

  /** When every participant is a distinct user and every selection is one
      player's only pick, the count `allPlayersReady` compares is exact: it
      holds exactly when every participant shows Ready. */
  lemma ReadyCountExact(selections: seq<Selection>, participants: seq<Participant>)
    requires forall k :: 0 <= k < |participants| ==> participants[k].user.Some?
    requires Distinct(PlayerIds(participants))
    requires Distinct(Pickers(selections))
    requires forall i :: 0 <= i < |selections| ==> selections[i].selectedBy in PlayerIds(participants)
    ensures AllPlayersReady(selections, participants) <==>
      forall k :: 0 <= k < |participants| ==> HasSelected(selections, participants[k])
  {
    var ps, us := Pickers(selections), PlayerIds(participants);
    var s, u := set x | x in ps, set x | x in us;
    DistinctCardinality(ps);
    DistinctCardinality(us);
    AllShowReadyIffPicked(selections, participants);
    assert s <= u by {
      forall x | x in s ensures x in u {
        var i :| 0 <= i < |ps| && ps[i] == x;
      }
    }
    if |s| == |u| {
      SubsetSameSize(s, u);
    } else {
      assert u != s;
    }
  }

  /** Whenever everybody is ready in a game with players, the host may start. */
  lemma ReadyLetsHostStart(selections: seq<Selection>, participants: seq<Participant>)
    requires AllPlayersReady(selections, participants) && participants != []
    ensures CanHostStart(true, selections)
    ensures !CanHostStart(false, selections)
  {
  }

  /** The host's status line. */
  function HostMessage(selections: seq<Selection>, participants: seq<Participant>, isHost: bool): (m: string)
    ensures AllPlayersReady(selections, participants) ==> m == "All players ready! You can start the game."
    ensures !AllPlayersReady(selections, participants) && CanHostStart(isHost, selections) ==>
      m == JsText.NatToString(|selections|) + " of " + JsText.NatToString(|participants|)
        + " players have selected tracks. You can start now or wait for more."
    ensures !AllPlayersReady(selections, participants) && !CanHostStart(isHost, selections) ==>
      m == "Waiting for players to select tracks... (" + JsText.NatToString(|selections|) + " of "
        + JsText.NatToString(|participants|) + " ready)"
  {
    var n, total := JsText.NatToString(PlayersWithTracks(selections)), JsText.NatToString(|participants|);
    if AllPlayersReady(selections, participants) then "All players ready! You can start the game."
    else if CanHostStart(isHost, selections) then
      n + " of " + total + " players have selected tracks. You can start now or wait for more."
    else "Waiting for players to select tracks... (" + n + " of " + total + " ready)"
  }

  /** The answer to the save request: saved, refused with an optional error
      text, or no answer at all. */
  datatype SaveAnswer = Saved | Refused(error: Option<string>) | NoAnswer

  class TrackSelectionView {
    const currentUserId: string
    const isHost: bool
    const participants: seq<Participant>
    var selectedTrack: Option<Track>
    var playingTrack: Option<string>
    var isSubmitting: bool
    var allSelections: seq<Selection>

    constructor(currentUserId: string, isHost: bool, participants: seq<Participant>)
      ensures this.currentUserId == currentUserId && this.isHost == isHost && this.participants == participants
      ensures selectedTrack == None && playingTrack == None && !isSubmitting && allSelections == []
    {
      this.currentUserId := currentUserId;
      this.isHost := isHost;
      this.participants := participants;
      selectedTrack := None;
      playingTrack := None;
      isSubmitting := false;
      allSelections := [];
    }

    /** `loadSelections()`: with an answer, the selections are replaced and the
        user's own pick, if any, becomes the selected track. */
    method LoadSelections(answer: Option<seq<Selection>>)
      modifies this
      ensures answer.None? ==> allSelections == old(allSelections) && selectedTrack == old(selectedTrack)
      ensures answer.Some? ==> allSelections == answer.value
      ensures answer.Some? ==> (selectedTrack ==
        match UserSelection(answer.value, currentUserId)
        case Some(s) => Some(ToTrack(s.song))
        case None => old(selectedTrack))
      ensures playingTrack == old(playingTrack) && isSubmitting == old(isSubmitting)
    {
      if answer.Some? {
        allSelections := answer.value;
        var mine := UserSelection(answer.value, currentUserId);
        if mine.Some? {
          selectedTrack := Some(ToTrack(mine.value.song));
        }
      }
    }

    /** `handleTrackSelect(track)`: a saved pick becomes the selected track and
        the selections are loaded again (`reload` is that answer); otherwise an
        alert. `isSubmitting` is false once more at the end. */
    method HandleTrackSelect(t: Track, answer: SaveAnswer, reload: Option<seq<Selection>>)
        returns (alert: Option<string>)
      modifies this
      ensures !isSubmitting && playingTrack == old(playingTrack)
      ensures answer.Saved? ==> alert.None? && (reload.Some? ==> allSelections == reload.value)
      ensures answer.Saved? ==> (selectedTrack ==
        if reload.Some? && UserSelection(reload.value, currentUserId).Some?
        then Some(ToTrack(UserSelection(reload.value, currentUserId).value.song))
        else Some(t))
      ensures answer.Refused? ==> alert == Some(
        if answer.error.Some? && answer.error.value != "" then answer.error.value else "Failed to save track selection")
      ensures answer.NoAnswer? ==> alert == Some("Failed to save track selection")
      ensures !answer.Saved? ==> selectedTrack == old(selectedTrack) && allSelections == old(allSelections)
    {
      isSubmitting := true;
      alert := None;
      match answer {
        case Saved =>
          selectedTrack := Some(t);
          LoadSelections(reload);
        case Refused(e) =>
          alert := Some(if e.Some? && e.value != "" then e.value else "Failed to save track selection");
        case NoAnswer =>
          alert := Some("Failed to save track selection");
      }
      isSubmitting := false;
    }

    /** `handleRemoveSelection()`: on success nothing is selected any more; the
        selections are not loaded again. */
    method HandleRemoveSelection(removed: bool)
      modifies this
      ensures removed ==> selectedTrack == None
      ensures !removed ==> selectedTrack == old(selectedTrack)
      ensures allSelections == old(allSelections) && playingTrack == old(playingTrack)
      ensures isSubmitting == old(isSubmitting)
    {
      if removed {
        selectedTrack := None;
      }
    }

    /** `playPreview(track)`. */
    method PlayPreview(t: Track)
      modifies this
      ensures selectedTrack == old(selectedTrack) && allSelections == old(allSelections)
      ensures !HasPreview(t) ==> playingTrack == old(playingTrack)
      ensures HasPreview(t) && old(playingTrack) == Some(t.id) ==> playingTrack == None
      ensures HasPreview(t) && old(playingTrack) != Some(t.id) ==> playingTrack == Some(t.id)
    {
      if !HasPreview(t) {
        return;
      }
      if playingTrack == Some(t.id) {
        playingTrack := None;
        return;
      }
      playingTrack := Some(t.id);
    }

    /** The preview's `ended` or `error` event. */
    method PreviewStopped()
      modifies this
      ensures playingTrack == None && selectedTrack == old(selectedTrack)
    {
      playingTrack := None;
    }

    /** The search is offered only while nothing is selected. */
    predicate ShowsSearch()
      reads this
    {
      selectedTrack.None?
    }

    /** The list handed to the search: the selected track, if any. */
    function SearchSelection(): (r: seq<Track>)
      reads this
      ensures |r| <= 1
      ensures r == [] <==> selectedTrack.None?
      ensures selectedTrack.Some? ==> r[0] == selectedTrack.value
    {
      if selectedTrack.Some? then [selectedTrack.value] else []
    }
  }
}
