/** The unified track record (`UnifiedTrack` of `lib/deezer.ts`, `SpotifyTrack`
    of `lib/spotify.ts`) and the de-duplicated track lists that the playlist
    screens keep. */
module Tracks {
  import opened Wrappers

  datatype Image = Image(url: string, height: nat, width: nat)

  datatype Album = Album(name: string, images: seq<Image>)

  datatype ExternalUrls = ExternalUrls(spotify: Option<string>, deezer: Option<string>)

  datatype Source = SpotifySource | DeezerSource

  /** `source` is absent on records that come straight from Spotify. */
  datatype Track = Track(
    id: string,
    name: string,
    artists: seq<string>,
    album: Album,
    previewUrl: Option<string>,
    externalUrls: ExternalUrls,
    durationMs: nat,
    source: Option<Source>)

  /** `track.preview_url` read as a JavaScript condition: present and non-empty. */
  predicate HasPreview(t: Track) {
    t.previewUrl.Some? && t.previewUrl.value != ""
  }

  /** `list.some(t => t.id === id)`. */
  predicate HasId(list: seq<Track>, id: string) {
    exists i :: 0 <= i < |list| && list[i].id == id
  }

  /** No two entries share an id. */
  predicate UniqueIds(list: seq<Track>) {
    forall i, j :: 0 <= i < j < |list| ==> list[i].id != list[j].id
  }

  /** Appends `t` unless a track with its id is already listed. */
  function AddTrack(list: seq<Track>, t: Track): seq<Track> {
    if HasId(list, t.id) then list else list + [t]
  }

  /** `list.filter(t => t.id !== id)`. */
  function RemoveId(list: seq<Track>, id: string): seq<Track> {
    if list == [] then []
    else if list[0].id == id then RemoveId(list[1..], id)
    else [list[0]] + RemoveId(list[1..], id)
  }

  /** Adding keeps ids unique, and the new track is then listed. */
  lemma AddTrackKeepsUnique(list: seq<Track>, t: Track)
    requires UniqueIds(list)
    ensures UniqueIds(AddTrack(list, t))
    ensures HasId(AddTrack(list, t), t.id)
  {
    if !HasId(list, t.id) {
      assert AddTrack(list, t)[|list|] == t;
    }
  }

  /** Adding the same track twice is adding it once. */
  lemma AddTrackIdempotent(list: seq<Track>, t: Track)
    ensures AddTrack(AddTrack(list, t), t) == AddTrack(list, t)
  {
    if !HasId(list, t.id) {
      assert (list + [t])[|list|].id == t.id;
    }
  }

  /** The tracks left by removal are the listed tracks with another id. */
  lemma {:induction false} RemoveIdElements(list: seq<Track>, id: string)
    ensures forall u :: u in RemoveId(list, id) <==> u in list && u.id != id
    ensures |RemoveId(list, id)| <= |list|
  {
    if list != [] {
      RemoveIdElements(list[1..], id);
      assert list == [list[0]] + list[1..];
    }
  }

  /** After removal no track with that id is left, and every other track stays. */
  lemma RemoveIdMembers(list: seq<Track>, id: string)
    ensures !HasId(RemoveId(list, id), id)
    ensures forall u :: u in RemoveId(list, id) <==> u in list && u.id != id
    ensures |RemoveId(list, id)| <= |list|
  {
    RemoveIdElements(list, id);
    var r := RemoveId(list, id);
    forall i | 0 <= i < |r| ensures r[i].id != id {
      assert r[i] in r;
    }
  }

  /** Removal works piece by piece: it keeps the remaining tracks in their order. */
  lemma {:induction false} RemoveIdAppend(a: seq<Track>, b: seq<Track>, id: string)
    ensures RemoveId(a + b, id) == RemoveId(a, id) + RemoveId(b, id)
  {
    if a == [] {
      assert a + b == b;
    } else {
      assert (a + b)[1..] == a[1..] + b;
      RemoveIdAppend(a[1..], b, id);
    }
  }

  /** A list without the id is left as it is by removal. */
  lemma {:induction false} RemoveAbsentId(list: seq<Track>, id: string)
    requires !HasId(list, id)
    ensures RemoveId(list, id) == list
  {
    if list != [] {
      RemoveAbsentId(list[1..], id);
      assert [list[0]] + list[1..] == list;
    }
  }

  /** Removing a track that was just added gives back the earlier list. */
  lemma AddThenRemove(list: seq<Track>, t: Track)
    requires !HasId(list, t.id)
    ensures RemoveId(AddTrack(list, t), t.id) == list
  {
    RemoveIdAppend(list, [t], t.id);
    RemoveAbsentId(list, t.id);
    assert RemoveId([t], t.id) == [];
  }

  /** A track in front of a list of other ids keeps ids unique. */
  lemma ConsUnique(h: Track, r: seq<Track>)
    requires UniqueIds(r)
    requires forall k :: 0 <= k < |r| ==> r[k].id != h.id
    ensures UniqueIds([h] + r)
  {
    var w := [h] + r;
    forall i, j | 0 <= i < j < |w| ensures w[i].id != w[j].id {
      assert w[j] == r[j - 1];
      if i > 0 {
        assert w[i] == r[i - 1];
      }
    }
  }

  /** Removal keeps ids unique. */
  lemma {:induction false} RemoveIdKeepsUnique(list: seq<Track>, id: string)
    requires UniqueIds(list)
    ensures UniqueIds(RemoveId(list, id))
  {
    if list != [] {
      var t := list[1..];
      assert UniqueIds(t) by {
        forall i, j | 0 <= i < j < |t| ensures t[i].id != t[j].id {
          assert t[i] == list[i + 1] && t[j] == list[j + 1];
        }
      }
      RemoveIdKeepsUnique(t, id);
      if list[0].id != id {
        RemoveIdElements(t, id);
        var r := RemoveId(t, id);
        forall k | 0 <= k < |r| ensures r[k].id != list[0].id {
          assert r[k] in t;
          var m :| 0 <= m < |t| && t[m] == r[k];
          assert list[m + 1] == r[k];
        }
        ConsUnique(list[0], r);
      }
    }
  }
}
