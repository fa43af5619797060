/** The track search of `components/Game/MusicSearch.tsx`: the search request
    and its results, the preview player, and the Add button of each result. */
module MusicSearch {
  import opened Wrappers
  import opened JsText
  import opened Tracks
  import Uri

  const SearchPath: string := "/api/spotify/search"

  /** The request of `searchTracks(query)`: the encoded query and ten results. */
  function SearchUrl(query: string): string {
    SearchPath + "?q=" + Uri.EncodeUriComponent(query) + "&limit=10"
  }

  /** The search route reads the query back: the `q` parameter of the request
      is the encoded query, and decoding it gives the query. */
  lemma SearchUrlCarriesQuery(query: string)
    ensures Uri.GetParam(SearchUrl(query), "q") == Some(Uri.EncodeUriComponent(query))
    ensures Uri.DecodeUriComponent(Uri.EncodeUriComponent(query)) == Some(query)
  {
    var e := Uri.EncodeUriComponent(query);
    Uri.EncodedAlphabet(query);
    forall k | 0 <= k < |e| ensures e[k] != '&' && e[k] != '#' {
      assert e[k] == '%' || Uri.IsUnreserved(e[k]);
    }
    assert SearchUrl(query) == SearchPath + "?" + "q" + "=" + e + "&" + "limit=10";
    Uri.GetFirstParam(SearchPath, "q", e, "limit=10");
    Uri.DecodeEncode(query);
  }

  /** The answer to the search request: the `tracks` of a successful answer
      (missing when the answer had none), a refused request, or none at all. */
  datatype SearchAnswer = Found(tracks: Option<seq<Track>>) | Refused | NoAnswer

  /** The results that follow from an answer. */
  function Results(answer: SearchAnswer): (r: seq<Track>)
    ensures !answer.Found? ==> r == []
    ensures answer.Found? && answer.tracks.Some? ==> r == answer.tracks.value
    ensures answer.Found? && answer.tracks.None? ==> r == []
  {
    match answer
    case Found(ts) => if ts.Some? then ts.value else []
    case Refused => []
    case NoAnswer => []
  }

  class MusicSearchView {
    /** `selectedTracks`, given by the parent. */
    const selectedTracks: seq<Track>
    var query: string
    var tracks: seq<Track>
    var loading: bool
    var playingTrack: Option<string>

    constructor(selectedTracks: seq<Track>)
      ensures this.selectedTracks == selectedTracks
      ensures query == "" && tracks == [] && !loading && playingTrack == None
    {
      this.selectedTracks := selectedTracks;
      query := "";
      tracks := [];
      loading := false;
      playingTrack := None;
    }

    /** `searchTracks(searchQuery)`: a blank query clears the results and sends
        nothing; otherwise one request, then the results of its answer. */
    method SearchTracks(searchQuery: string, answer: SearchAnswer) returns (request: Option<string>)
      modifies this
      ensures IsBlank(searchQuery) ==> request.None? && tracks == [] && loading == old(loading)
      ensures !IsBlank(searchQuery) ==> (request == Some(SearchUrl(searchQuery))
        && tracks == Results(answer) && !loading)
      ensures query == old(query) && playingTrack == old(playingTrack)
    {
      if IsBlank(searchQuery) {
        tracks := [];
        return None;
      }
      var url := SearchUrl(searchQuery);
      var results := Results(answer);
      loading := true;
      request := Some(url);
      tracks := results;
      loading := false;
    }

    /** The Search button, or Enter in the box: a search for the typed query. */
    method HandleSearch(answer: SearchAnswer) returns (request: Option<string>)
      modifies this
      ensures IsBlank(query) ==> request.None? && tracks == []
      ensures !IsBlank(query) ==> request == Some(SearchUrl(query)) && tracks == Results(answer)
      ensures query == old(query) && playingTrack == old(playingTrack)
    {
      request := SearchTracks(query, answer);
    }

    /** `disabled` of the Search button. */
    predicate SearchDisabled()
      reads this
    {
      loading || IsBlank(query)
    }

    /** Once no search is in flight, the Search button is enabled exactly when
        a click sends a request (by `HandleSearch`'s contract, for a query
        that is not blank); it stays disabled only for white space. */
    lemma SearchEnabledIffSends()
      requires !loading
      ensures !SearchDisabled() <==> !IsBlank(query)
      ensures SearchDisabled() ==> forall i :: 0 <= i < |query| ==> IsJsSpace(query[i])
    {
      BlankIffAllSpace(query);
    }

    /** `isTrackSelected(track)`; the Add button of a result is disabled
        exactly then. */
    predicate IsTrackSelected(t: Track)
      reads this
    {
      HasId(selectedTracks, t.id)
    }

    /** The Add button: it hands the track to the parent unless it is already
        selected. */
    method AddResult(t: Track) returns (handed: Option<Track>)
      ensures handed.None? <==> IsTrackSelected(t)
      ensures handed.Some? ==> handed.value == t
    {
      if IsTrackSelected(t) {
        return None;
      }
      return Some(t);
    }

    /** `playPreview(track)` once the browser has answered `play()`: a track
        without a preview changes nothing, the playing track stops, and any
        other track plays only if `play()` succeeded. */
    method PlayPreview(t: Track, playSucceeded: bool)
      modifies this
      ensures tracks == old(tracks) && query == old(query)
      ensures !HasPreview(t) ==> playingTrack == old(playingTrack)
      ensures HasPreview(t) && old(playingTrack) == Some(t.id) ==> playingTrack == None
      ensures HasPreview(t) && old(playingTrack) != Some(t.id) ==>
        playingTrack == if playSucceeded then Some(t.id) else None
    {
      if !HasPreview(t) {
        return;
      }
      if playingTrack == Some(t.id) {
        playingTrack := None;
        return;
      }
      playingTrack := if playSucceeded then Some(t.id) else None;
    }

    /** The preview's `ended` or `error` event. */
    method PreviewStopped()
      modifies this
      ensures playingTrack == None && tracks == old(tracks)
    {
      playingTrack := None;
    }
  }
}
