/** The playlist browser of `app/playlists/page.tsx`: the search filter, the
    five-star rating row and the song count of a playlist card. */
module PlaylistsPage {
  import opened Wrappers
  import opened JsText
  import PlaylistsApi

  datatype SongRef = SongRef(id: string, title: string, artist: string)

  /** A playlist as the list route returns it: the stored record, the number
      of ratings, its songs, and `_count.songs` when the route counted them. */
  datatype ListedPlaylist = ListedPlaylist(
    playlist: PlaylistsApi.Playlist,
    ratingCount: int,
    songs: seq<SongRef>,
    countedSongs: Option<nat>)

  /** A playlist is kept when the lower-cased query occurs in its name or in
      its description. */
  predicate Kept(p: ListedPlaylist, query: string) {
    || PlaylistsApi.ContainsInsensitive(p.playlist.name, query)
    || (p.playlist.description.Some? && PlaylistsApi.ContainsInsensitive(p.playlist.description.value, query))
  }

  /** `filteredPlaylists`: the kept playlists in list order. */
  function FilteredPlaylists(playlists: seq<ListedPlaylist>, query: string): (r: seq<ListedPlaylist>)
    ensures forall p :: p in r <==> p in playlists && Kept(p, query)
    ensures |r| <= |playlists|
  {
    if playlists == [] then []
    else
      assert playlists == [playlists[0]] + playlists[1..];
      if Kept(playlists[0], query) then [playlists[0]] + FilteredPlaylists(playlists[1..], query)
      else FilteredPlaylists(playlists[1..], query)
  }

  /** A kept playlist appears as many times as in the list; the rest none. */
  lemma {:induction false} FilteredPlaylistsCounts(playlists: seq<ListedPlaylist>, query: string)
    ensures forall p ::
      multiset(FilteredPlaylists(playlists, query))[p] == if Kept(p, query) then multiset(playlists)[p] else 0
  {
    if playlists != [] {
      FilteredPlaylistsCounts(playlists[1..], query);
      assert playlists == [playlists[0]] + playlists[1..];
    }
  }

  /** An empty search keeps every playlist, in order. */
  lemma {:induction false} EmptyQueryKeepsAll(playlists: seq<ListedPlaylist>)
    ensures FilteredPlaylists(playlists, "") == playlists
  {
    if playlists != [] {
      ToLowerEmpty();
      ContainsEmpty(ToLower(playlists[0].playlist.name));
      assert Kept(playlists[0], "");
      assert FilteredPlaylists(playlists, "") == [playlists[0]] + FilteredPlaylists(playlists[1..], "");
      EmptyQueryKeepsAll(playlists[1..]);
    }
  }

  /** The page filters as the list route searches: for a listed (published and
      approved) playlist, the page keeps it for a query exactly when the route
      matches it for that search. */
  lemma FilterAgreesWithRoute(p: ListedPlaylist, query: string)
    requires p.playlist.isPublished && p.playlist.status == PlaylistsApi.Approved
    ensures Kept(p, query) <==> PlaylistsApi.Matches(p.playlist, Some(query))
  {
    if query == "" {
      ToLowerEmpty();
      ContainsEmpty(ToLower(p.playlist.name));
    }
  }

  /** `renderStars(rating)`: five stars, star `i` filled when `i < floor(rating)`. */
  function RenderStars(rating: real): (stars: seq<bool>)
    ensures |stars| == 5
    ensures forall i :: 0 <= i < 5 ==> (stars[i] <==> i < rating.Floor)
  {
    seq(5, i => i < rating.Floor)
  }

  function FilledCount(stars: seq<bool>): nat {
    if stars == [] then 0 else (if stars[0] then 1 else 0) + FilledCount(stars[1..])
  }

  /** Exactly the stars before position `n` are filled. */
  predicate FilledPrefix(stars: seq<bool>, n: int) {
    forall i :: 0 <= i < |stars| ==> (stars[i] <==> i < n)
  }

  lemma {:induction false} FilledPrefixCount(stars: seq<bool>, n: int)
    requires FilledPrefix(stars, n)
    ensures FilledCount(stars) == if n <= 0 then 0 else if n >= |stars| then |stars| else n
  {
    if stars != [] {
      FilledPrefixCount(stars[1..], n - 1);
    }
  }

  /** The row shows the whole stars of the rating, between none and five:
      a rating of 3.7 fills three. */
  lemma FilledStars(rating: real)
    ensures FilledCount(RenderStars(rating)) ==
      if rating.Floor <= 0 then 0 else if rating.Floor >= 5 then 5 else rating.Floor
  {
    FilledPrefixCount(RenderStars(rating), rating.Floor);
  }

  /** A higher rating never fills fewer stars. */
  lemma StarsMonotone(a: real, b: real)
    requires a <= b
    ensures FilledCount(RenderStars(a)) <= FilledCount(RenderStars(b))
  {
    FilledStars(a);
    FilledStars(b);
  }

  /** The stars are shown only for a rated playlist. */
  predicate ShowsStars(p: ListedPlaylist) {
    p.ratingCount > 0
  }

  /** `_count?.songs || songs?.length || 0`: the counted songs when that count
      is not zero, otherwise the listed songs. */
  function SongCount(p: ListedPlaylist): (n: nat)
    ensures p.countedSongs.Some? && p.countedSongs.value != 0 ==> n == p.countedSongs.value
    ensures (p.countedSongs.None? || p.countedSongs.value == 0) ==> n == |p.songs|
  {
    if p.countedSongs.Some? && p.countedSongs.value != 0 then p.countedSongs.value else |p.songs|
  }

  /** The card reads zero songs only for a playlist that has none counted and
      none listed, and a count that agrees with the list shows the list's
      length. */
  lemma SongCountZeroIffNone(p: ListedPlaylist)
    ensures SongCount(p) == 0 <==> (p.countedSongs.None? || p.countedSongs.value == 0) && p.songs == []
    ensures p.countedSongs == Some(|p.songs|) ==> SongCount(p) == |p.songs|
  {
  }

  class PlaylistsPageView {
    var playlists: seq<ListedPlaylist>
    var searchQuery: string
    var loading: bool

    constructor()
      ensures playlists == [] && searchQuery == "" && loading
    {
      playlists := [];
      searchQuery := "";
      loading := true;
    }

    /** `fetchPlaylists()` on mount: an answer replaces the list; loading ends
        either way. */
    method FetchPlaylists(answer: Option<seq<ListedPlaylist>>)
      modifies this
      ensures playlists == if answer.Some? then answer.value else old(playlists)
      ensures !loading && searchQuery == old(searchQuery)
    {
      if answer.Some? {
        playlists := answer.value;
      }
      loading := false;
    }

    /** The playlists shown. */
    function Shown(): (r: seq<ListedPlaylist>)
      reads this
      ensures forall p :: p in r <==> p in playlists && Kept(p, searchQuery)
    {
      FilteredPlaylists(playlists, searchQuery)
    }
  }
}
