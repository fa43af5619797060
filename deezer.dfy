/** The Deezer client of `lib/deezer.ts`: the provider's track record, its
    conversion to the unified track shape, the `deezer_` id prefix and its
    removal, and the two lookups with the HTTP exchange passed in as a
    function from request URL to the decoded response (`None` for a response
    that is not ok). */
module Deezer {
  import opened Wrappers
  import opened JsText
  import opened Tracks
  import Uri

  const BaseUrl: string := "https://api.deezer.com"

  /** The prefix that marks a unified id as a Deezer id. */
  const Prefix: string := "deezer_"

  const DefaultSearchLimit: nat := 20

  datatype DeezerArtist = DeezerArtist(id: string, name: string)

  datatype DeezerAlbum = DeezerAlbum(
    id: string,
    title: string,
    cover: string,
    coverSmall: string,
    coverMedium: string,
    coverBig: string,
    coverXl: string)

  /** The provider sends the duration in seconds as a decimal string. */
  datatype DeezerTrack = DeezerTrack(
    id: string,
    title: string,
    titleShort: string,
    duration: DigitString,
    preview: string,
    artist: DeezerArtist,
    album: DeezerAlbum,
    explicitLyrics: bool,
    link: string,
    rank: int)

  /** JavaScript's `a || b` on strings: `a` unless it is empty. */
  function Or(a: string, b: string): string {
    if a != "" then a else b
  }

  /** The four album images, largest first, each with its fallback cover. */
  function Images(a: DeezerAlbum): seq<Image> {
    [Image(Or(a.coverXl, a.coverBig), 1000, 1000),
     Image(Or(a.coverBig, a.coverMedium), 640, 640),
     Image(Or(a.coverMedium, a.cover), 300, 300),
     Image(Or(a.coverSmall, a.cover), 64, 64)]
  }

  /** `trackId` without a leading `deezer_`; other ids are kept as they are. */
  function StripDeezerPrefix(trackId: string): (r: string)
    ensures StartsWith(trackId, Prefix) ==> Prefix + r == trackId
    ensures !StartsWith(trackId, Prefix) ==> r == trackId
  {
    if StartsWith(trackId, Prefix) then trackId[|Prefix|..] else trackId
  }

  /** `convertToUnifiedFormat`: the unified record of a Deezer track. */
  function ConvertToUnifiedFormat(t: DeezerTrack): (r: Track)
    ensures r.id == Prefix + t.id && StripDeezerPrefix(r.id) == t.id
    ensures r.name == t.title && r.artists == [t.artist.name] && r.album.name == t.album.title
    ensures r.previewUrl.None? <==> t.preview == ""
    ensures r.previewUrl.Some? ==> r.previewUrl.value == t.preview
    ensures r.durationMs == 1000 * DigitsValue(t.duration)
    ensures r.source == Some(DeezerSource)
    ensures r.externalUrls == ExternalUrls(None, Some(t.link))
    ensures |r.album.images| == 4
    ensures forall i :: 0 <= i < 4 ==> r.album.images[i].height == r.album.images[i].width == [1000, 640, 300, 64][i]
  {
    Track(
      Prefix + t.id,
      t.title,
      [t.artist.name],
      Album(t.album.title, Images(t.album)),
      if t.preview != "" then Some(t.preview) else None,
      ExternalUrls(None, Some(t.link)),
      DigitsValue(t.duration) * 1000,
      Some(DeezerSource))
  }

  /** Each image uses the larger cover when the provider sent it and falls back
      to the next one only when it is empty; an image url is empty only when
      both of its covers are. */
  lemma ImageFallbacks(t: DeezerTrack)
    ensures var im, a := ConvertToUnifiedFormat(t).album.images, t.album;
      && (a.coverXl != "" ==> im[0].url == a.coverXl) && (a.coverXl == "" ==> im[0].url == a.coverBig)
      && (a.coverBig != "" ==> im[1].url == a.coverBig) && (a.coverBig == "" ==> im[1].url == a.coverMedium)
      && (a.coverMedium != "" ==> im[2].url == a.coverMedium) && (a.coverMedium == "" ==> im[2].url == a.cover)
      && (a.coverSmall != "" ==> im[3].url == a.coverSmall) && (a.coverSmall == "" ==> im[3].url == a.cover)
    ensures var im := ConvertToUnifiedFormat(t).album.images;
      im[2].url == "" <==> t.album.coverMedium == "" && t.album.cover == ""
  {
  }

  /** The prefixed id of a converted track strips back to the provider's id,
      and stripping an id without the prefix changes nothing. */
  lemma StripConvertedId(t: DeezerTrack, other: string)
    requires !StartsWith(other, Prefix)
    ensures StripDeezerPrefix(ConvertToUnifiedFormat(t).id) == t.id
    ensures StripDeezerPrefix(other) == other
    ensures StripDeezerPrefix(Prefix + other) == other
  {
    assert StartsWith(Prefix + other, Prefix);
  }

  /** The preview url is kept exactly when the provider sent a non-empty one. */
  lemma ConvertedPreview(t: DeezerTrack)
    ensures HasPreview(ConvertToUnifiedFormat(t)) <==> t.preview != ""
  {
  }

  // ----- Lookups -----

  /** The request of `getTrack`: the provider id, whether it came prefixed or not. */
  function TrackUrl(trackId: string): string {
    BaseUrl + "/track/" + StripDeezerPrefix(trackId)
  }

  /** `getTrack`: `None` stands for the error thrown on a response that is not ok. */
  function GetTrack(trackId: string, fetch: string -> Option<DeezerTrack>): (r: Option<Track>)
    ensures r.Some? <==> fetch(TrackUrl(trackId)).Some?
    ensures r.Some? ==> r.value == ConvertToUnifiedFormat(fetch(TrackUrl(trackId)).value)
  {
    match fetch(TrackUrl(trackId))
    case None => None
    case Some(t) => Some(ConvertToUnifiedFormat(t))
  }

  /** Looking a track up by its unified id asks the provider for the record
      with the provider's own id, as a lookup by that id does; so a track
      resolved again from its unified id is the same unified track. */
  lemma GetTrackByUnifiedId(t: DeezerTrack, fetch: string -> Option<DeezerTrack>)
    requires !StartsWith(t.id, Prefix)
    ensures TrackUrl(ConvertToUnifiedFormat(t).id) == TrackUrl(t.id) == BaseUrl + "/track/" + t.id
    ensures GetTrack(ConvertToUnifiedFormat(t).id, fetch) == GetTrack(t.id, fetch)
    ensures fetch(TrackUrl(t.id)) == Some(t) ==>
      GetTrack(ConvertToUnifiedFormat(t).id, fetch) == Some(ConvertToUnifiedFormat(t))
  {
  }

  /** The request of `searchTracks`: `q` and `limit` serialized as a form. */
  function SearchUrl(query: string, limit: nat): string {
    BaseUrl + "/search?q=" + Uri.FormEncode(query) + "&limit=" + Uri.FormEncode(NatToString(limit))
  }

  /** The conversion applied to every result, in order. */
  function ConvertAll(ts: seq<DeezerTrack>): (r: seq<Track>)
    ensures |r| == |ts|
    ensures forall i :: 0 <= i < |ts| ==> r[i] == ConvertToUnifiedFormat(ts[i])
  {
    if ts == [] then [] else [ConvertToUnifiedFormat(ts[0])] + ConvertAll(ts[1..])
  }

  /** `searchTracks(query, limit = 20)`: every result converted, in the
      provider's order; tracks without a preview are counted for the log but
      not dropped. `None` stands for the error thrown on a response that is
      not ok. */
  function SearchTracks(query: string, limit: Option<nat>, fetch: string -> Option<seq<DeezerTrack>>): (r: Option<seq<Track>>)
    ensures var resp := fetch(SearchUrl(query, limit.GetOr(DefaultSearchLimit)));
      && (r.Some? <==> resp.Some?)
      && (r.Some? ==> |r.value| == |resp.value|)
      && (r.Some? ==> forall i :: 0 <= i < |resp.value| ==> r.value[i] == ConvertToUnifiedFormat(resp.value[i]))
  {
    match fetch(SearchUrl(query, limit.GetOr(DefaultSearchLimit)))
    case None => None
    case Some(data) => Some(ConvertAll(data))
  }

  /** The limit is sent as its decimal digits. */
  lemma SearchUrlLimit(query: string, limit: nat)
    ensures SearchUrl(query, limit) == BaseUrl + "/search?q=" + Uri.FormEncode(query) + "&limit=" + NatToString(limit)
  {
    var d := NatToString(limit);
    assert forall i :: 0 <= i < |d| ==> Uri.IsFormSafe(d[i]) by {
      assert IsDigits(d);
    }
    Uri.FormEncodeSafe(d);
  }
}
