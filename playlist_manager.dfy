/** The host's song list of `components/Game/PlaylistManager.tsx`: adding a
    track once, removing it, previewing, clearing, the Fisher–Yates shuffle
    and when the start button is offered. `Math.random` is replaced by the
    indices it would have produced; audio playback is not modelled, only the
    `playingTrack` state it drives. */
module PlaylistManager {
  import opened Wrappers
  import opened Tracks

  /** The fewest tracks a game can start with. */
  const MinTracksToStart: nat := 2

  // ----- Fisher–Yates -----

  /** `s` with the elements at `i` and `j` exchanged. */
  function Swap<T>(s: seq<T>, i: nat, j: nat): (r: seq<T>)
    requires i < |s| && j < |s|
    ensures |r| == |s| && r[i] == s[j] && r[j] == s[i]
    ensures forall k :: 0 <= k < |s| && k != i && k != j ==> r[k] == s[k]
  {
    s[i := s[j]][j := s[i]]
  }

  /** The draws `Math.floor(Math.random() * (i + 1))` of a list of `n` tracks:
      the draw used at index `i` lies in `[0, i]`. */
  predicate ValidDraws(js: seq<nat>, n: nat) {
    |js| == n && forall i :: 0 <= i < |js| ==> js[i] <= i
  }

  /** The swaps of the loop for `i` from `k` down to 1. */
  function SwapsFrom<T>(s: seq<T>, js: seq<nat>, k: int): seq<T>
    requires k < |s| && ValidDraws(js, |s|)
    decreases k
  {
    if k <= 0 then s else SwapsFrom(Swap(s, k, js[k]), js, k - 1)
  }

  /** The list the shuffle produces from `s` with draws `js`. */
  function Shuffled<T>(s: seq<T>, js: seq<nat>): seq<T>
    requires ValidDraws(js, |s|)
  {
    SwapsFrom(s, js, |s| - 1)
  }

  lemma SwapPermutes<T>(s: seq<T>, i: nat, j: nat)
    requires i < |s| && j < |s|
    ensures multiset(Swap(s, i, j)) == multiset(s)
  {
  }

  lemma SwapKeepsUnique(s: seq<Track>, i: nat, j: nat)
    requires i < |s| && j < |s| && UniqueIds(s)
    ensures UniqueIds(Swap(s, i, j))
  {
    var r := Swap(s, i, j);
    forall a, b | 0 <= a < b < |r| ensures r[a].id != r[b].id {
      var a' := if a == i then j else if a == j then i else a;
      var b' := if b == i then j else if b == j then i else b;
      assert r[a] == s[a'] && r[b] == s[b'];
    }
  }

  /** The shuffle is a permutation: same length, same elements, each as often. */
  lemma {:induction false} ShuffledPermutes<T>(s: seq<T>, js: seq<nat>, k: int)
    requires k < |s| && ValidDraws(js, |s|)
    ensures |SwapsFrom(s, js, k)| == |s|
    ensures multiset(SwapsFrom(s, js, k)) == multiset(s)
    decreases k
  {
    if k > 0 {
      SwapPermutes(s, k, js[k]);
      ShuffledPermutes(Swap(s, k, js[k]), js, k - 1);
    }
  }

  /** Shuffling keeps the ids unique. */
  lemma {:induction false} ShuffledKeepsUnique(s: seq<Track>, js: seq<nat>, k: int)
    requires k < |s| && ValidDraws(js, |s|) && UniqueIds(s)
    ensures UniqueIds(SwapsFrom(s, js, k))
    decreases k
  {
    if k > 0 {
      SwapKeepsUnique(s, k, js[k]);
      ShuffledKeepsUnique(Swap(s, k, js[k]), js, k - 1);
    }
  }

  /** A list of at most one track is left as it is. */
  lemma ShortListUnchanged<T>(s: seq<T>, js: seq<nat>)
    requires |s| <= 1 && ValidDraws(js, |s|)
    ensures Shuffled(s, js) == s
  {
  }

  /** The loop of `shufflePlaylist` on the copied array. */
  method FisherYates<T>(a: array<T>, js: seq<nat>)
    requires ValidDraws(js, a.Length)
    modifies a
    ensures a[..] == Shuffled(old(a[..]), js)
    ensures multiset(a[..]) == multiset(old(a[..]))
  {
    var i := a.Length - 1;
    while i > 0
      invariant -1 <= i < a.Length
      invariant a.Length > 0 ==> 0 <= i
      invariant SwapsFrom(a[..], js, i) == Shuffled(old(a[..]), js)
    {
      var j := js[i];
      ghost var before := a[..];
      a[i], a[j] := a[j], a[i];
      assert a[..] == Swap(before, i, j);
      i := i - 1;
    }
    ShuffledPermutes(old(a[..]), js, a.Length - 1);
  }

  // ----- The component state -----

  class PlaylistManagerView {
    const isHost: bool
    /** Whether the parent passed `onStartGame`. */
    const canStart: bool
    var selectedTracks: seq<Track>
    var playingTrack: Option<string>

    ghost predicate Valid()
      reads this
    {
      UniqueIds(selectedTracks)
    }

    constructor(isHost: bool, canStart: bool)
      ensures this.isHost == isHost && this.canStart == canStart
      ensures selectedTracks == [] && playingTrack == None && Valid()
    {
      this.isHost := isHost;
      this.canStart := canStart;
      selectedTracks := [];
      playingTrack := None;
    }

    /** `handleTrackSelect(track)`: appended unless its id is listed. */
    method HandleTrackSelect(t: Track)
      requires Valid()
      modifies this
      ensures Valid()
      ensures selectedTracks == AddTrack(old(selectedTracks), t) && HasId(selectedTracks, t.id)
      ensures HasId(old(selectedTracks), t.id) ==> selectedTracks == old(selectedTracks)
      ensures playingTrack == old(playingTrack)
    {
      AddTrackKeepsUnique(selectedTracks, t);
      selectedTracks := AddTrack(selectedTracks, t);
    }

    /** `handleRemoveTrack(trackId)`: every track with the id goes, the rest
        keep their order, and a preview of it stops. */
    method HandleRemoveTrack(trackId: string)
      requires Valid()
      modifies this
      ensures Valid()
      ensures selectedTracks == RemoveId(old(selectedTracks), trackId)
      ensures !HasId(selectedTracks, trackId)
      ensures playingTrack == if old(playingTrack) == Some(trackId) then None else old(playingTrack)
    {
      RemoveIdKeepsUnique(selectedTracks, trackId);
      RemoveIdMembers(selectedTracks, trackId);
      selectedTracks := RemoveId(selectedTracks, trackId);
      if playingTrack == Some(trackId) {
        playingTrack := None;
      }
    }

    /** `playPreview(track)`: nothing without a preview; the playing track
        stops when pressed again; any other track starts. */
    method PlayPreview(t: Track)
      modifies this
      ensures selectedTracks == old(selectedTracks)
      ensures !HasPreview(t) ==> playingTrack == old(playingTrack)
      ensures HasPreview(t) && old(playingTrack) == Some(t.id) ==> playingTrack == None
      ensures HasPreview(t) && old(playingTrack) != Some(t.id) ==> playingTrack == Some(t.id)
    {
      if !HasPreview(t) {
        return;
      }
      if playingTrack == Some(t.id) {
        playingTrack := None;
        return;
      }
      playingTrack := Some(t.id);
    }

    /** The audio element's `ended` or `error` event. */
    method PreviewStopped()
      modifies this
      ensures playingTrack == None && selectedTracks == old(selectedTracks)
    {
      playingTrack := None;
    }

    /** `shufflePlaylist()` on a copy of the list. */
    method ShufflePlaylist(js: seq<nat>)
      requires Valid() && ValidDraws(js, |selectedTracks|)
      modifies this
      ensures Valid()
      ensures selectedTracks == Shuffled(old(selectedTracks), js)
      ensures multiset(selectedTracks) == multiset(old(selectedTracks))
      ensures |old(selectedTracks)| <= 1 ==> selectedTracks == old(selectedTracks)
      ensures playingTrack == old(playingTrack)
    {
      var shuffled := new Track[|selectedTracks|](i requires 0 <= i < |selectedTracks| reads this => selectedTracks[i]);
      assert shuffled[..] == selectedTracks;
      FisherYates(shuffled, js);
      ShuffledKeepsUnique(old(selectedTracks), js, |old(selectedTracks)| - 1);
      selectedTracks := shuffled[..];
    }

    /** The Clear button; a running preview is not stopped. */
    method Clear()
      modifies this
      ensures selectedTracks == [] && playingTrack == old(playingTrack) && Valid()
    {
      selectedTracks := [];
    }

    /** The start button is offered to the host from two tracks on. */
    predicate ShowsStart()
      reads this
    {
      isHost && |selectedTracks| >= MinTracksToStart && canStart
    }

    /** The "add at least one more song" note. */
    predicate ShowsOneMoreNote()
      reads this
    {
      isHost && |selectedTracks| == 1
    }

    /** The shuffle button appears from two tracks on. */
    predicate ShowsShuffle()
      reads this
    {
      isHost && |selectedTracks| > 1
    }
  }

  /** The start button and the note never show together; with a single track
      the note shows and the start button does not. */
  lemma StartAndNoteExclusive(v: PlaylistManagerView)
    ensures !(v.ShowsStart() && v.ShowsOneMoreNote())
    ensures v.isHost && |v.selectedTracks| == 1 ==> v.ShowsOneMoreNote() && !v.ShowsStart()
    ensures v.ShowsStart() ==> v.ShowsShuffle()
  {
  }
}
