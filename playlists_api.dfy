/** The playlist routes of `app/api/playlists/route.ts`: the public listing
    with its search, order and pages, and the creation of a user playlist.
    The store is an in-memory sequence of playlists and the clock is `now`. */
module PlaylistsApi {
  import opened Wrappers
  import opened JsText
  import Sorting

  datatype PlaylistStatus = Pending | Approved | Rejected

  datatype Playlist = Playlist(
    id: string,
    name: string,
    description: Option<string>,
    createdBy: string,
    isOfficial: bool,
    isPublished: bool,
    status: PlaylistStatus,
    rating: real,
    createdAt: int)

  const DefaultLimit: nat := 20
  const DefaultOffset: nat := 0

  // ----- GET -----

  /** `parseInt(searchParams.get(p) || default)`: an absent or empty parameter
      takes the default; `None` for text that is not a decimal count. */
  function ParseCount(param: Option<string>, default: nat): (r: Option<nat>)
    ensures param.None? || param.value == "" ==> r == Some(default)
    ensures param.Some? && param.value != "" ==> (r.Some? <==> IsDigits(param.value))
  {
    if param.None? || param.value == "" then Some(default)
    else if IsDigits(param.value) then Some(DigitsValue(param.value))
    else None
  }

  /** `contains` with `mode: 'insensitive'`, on ASCII letters. */
  predicate ContainsInsensitive(text: string, search: string) {
    Contains(ToLower(text), ToLower(search))
  }

  /** The `where` of the listing: published and approved, and, when a non-empty
      search is given, matching it in the name or in a description. */
  predicate Matches(p: Playlist, search: Option<string>) {
    && p.isPublished && p.status == Approved
    && (search.None? || search.value == ""
        || ContainsInsensitive(p.name, search.value)
        || (p.description.Some? && ContainsInsensitive(p.description.value, search.value)))
  }

  function FilterMatching(store: seq<Playlist>, search: Option<string>): (r: seq<Playlist>)
    ensures forall p :: p in r <==> p in store && Matches(p, search)
    ensures |r| <= |store|
    ensures forall p :: multiset(r)[p] == if Matches(p, search) then multiset(store)[p] else 0
  {
    if store == [] then []
    else
      assert store == [store[0]] + store[1..];
      if Matches(store[0], search) then [store[0]] + FilterMatching(store[1..], search)
      else FilterMatching(store[1..], search)
  }

  /** `orderBy: [{ isOfficial: 'desc' }, { rating: 'desc' }, { createdAt: 'desc' }]`. */
  function ListOrder(a: Playlist, b: Playlist): bool {
    || (a.isOfficial && !b.isOfficial)
    || (a.isOfficial == b.isOfficial && a.rating > b.rating)
    || (a.isOfficial == b.isOfficial && a.rating == b.rating && a.createdAt >= b.createdAt)
  }

  lemma ListOrderIsOrder()
    ensures Sorting.Total(ListOrder) && Sorting.Transitive(ListOrder)
  {
  }

  /** `skip: offset, take: limit`. */
  function Window<T>(s: seq<T>, offset: nat, limit: nat): (r: seq<T>)
    ensures |r| == if offset >= |s| then 0 else if limit < |s| - offset then limit else |s| - offset
    ensures forall i :: 0 <= i < |r| ==> r[i] == s[offset + i]
  {
    if offset >= |s| then []
    else if limit < |s| - offset then s[offset..offset + limit]
    else s[offset..]
  }

  datatype ListQuery = ListQuery(search: Option<string>, limit: Option<string>, offset: Option<string>)

  datatype Page = Page(playlists: seq<Playlist>, total: nat, hasMore: bool)

  /** Every matching playlist, in listing order. */
  function Ordered(store: seq<Playlist>, search: Option<string>): (r: seq<Playlist>)
    ensures forall p :: p in r <==> p in store && Matches(p, search)
    ensures |r| == |FilterMatching(store, search)|
    ensures Sorting.Sorted(r, ListOrder)
  {
    ListOrderIsOrder();
    var f := FilterMatching(store, search);
    var r := Sorting.Sort(f, ListOrder);
    assert forall p :: p in r <==> p in multiset(r);
    assert forall p :: p in f <==> p in multiset(f);
    assert |r| == |multiset(r)| == |multiset(f)| == |f|;
    r
  }

  /** `GET /api/playlists`: one page of the matching playlists in listing
      order, the number of all matching playlists, and whether more follow.
      `None` when `limit` or `offset` is not a decimal count. */
  function ListPlaylists(store: seq<Playlist>, q: ListQuery): (r: Option<Page>)
    ensures r.Some? <==> ParseCount(q.limit, DefaultLimit).Some? && ParseCount(q.offset, DefaultOffset).Some?
    ensures r.Some? ==>
      var limit, offset := ParseCount(q.limit, DefaultLimit).value, ParseCount(q.offset, DefaultOffset).value;
      && r.value.total == |FilterMatching(store, q.search)|
      && (r.value.hasMore <==> offset + limit < r.value.total)
      && r.value.playlists == Window(Ordered(store, q.search), offset, limit)
      && |r.value.playlists| <= limit
      && forall p :: p in r.value.playlists ==> p in store && Matches(p, q.search)
  {
    match (ParseCount(q.limit, DefaultLimit), ParseCount(q.offset, DefaultOffset))
    case (Some(limit), Some(offset)) =>
      var all := Ordered(store, q.search);
      var page := Window(all, offset, limit);
      assert forall p :: p in page ==> p in all;
      var total := |FilterMatching(store, q.search)|;
      Some(Page(page, total, offset + limit < total))
    case _ => None
  }

  /** A window of a sorted list is sorted. */
  lemma WindowSorted<T>(s: seq<T>, offset: nat, limit: nat, le: (T, T) -> bool)
    requires Sorting.Sorted(s, le)
    ensures Sorting.Sorted(Window(s, offset, limit), le)
  {
    var w := Window(s, offset, limit);
    forall i, j | 0 <= i < j < |w| ensures le(w[i], w[j]) {
      assert w[i] == s[offset + i] && w[j] == s[offset + j];
    }
  }

  /** A page lists playlists in listing order. */
  lemma PageOrdered(store: seq<Playlist>, q: ListQuery)
    requires ListPlaylists(store, q).Some?
    ensures Sorting.Sorted(ListPlaylists(store, q).value.playlists, ListOrder)
  {
    var limit, offset := ParseCount(q.limit, DefaultLimit).value, ParseCount(q.offset, DefaultOffset).value;
    WindowSorted(Ordered(store, q.search), offset, limit, ListOrder);
  }

  /** `hasMore` tells whether the next page, at `offset + limit`, has entries. */
  lemma HasMoreIffNextPage(store: seq<Playlist>, search: Option<string>, limit: nat, offset: nat, nextLimit: nat)
    requires nextLimit > 0
    ensures var all := Ordered(store, search);
      offset + limit < |FilterMatching(store, search)| <==> Window(all, offset + limit, nextLimit) != []
  {
  }

  /** Consecutive pages cover one larger page: no playlist is skipped and none
      is shown twice. */
  lemma PagesTile<T>(s: seq<T>, offset: nat, a: nat, b: nat)
    ensures Window(s, offset, a) + Window(s, offset + a, b) == Window(s, offset, a + b)
  {
    var l, m, w := Window(s, offset, a), Window(s, offset + a, b), Window(s, offset, a + b);
    if offset < |s| && a < |s| - offset {
      assert |l + m| == |w|;
      forall i | 0 <= i < |w| ensures (l + m)[i] == w[i] {
        if i >= |l| {
          assert (l + m)[i] == m[i - |l|];
        }
      }
    }
  }

  /** Without a search term every published, approved playlist is counted. */
  lemma NoSearchKeepsAll(p: Playlist)
    ensures Matches(p, None) == Matches(p, Some("")) == (p.isPublished && p.status == Approved)
  {
  }

  // ----- POST -----

  datatype CreateBody = CreateBody(name: Option<string>, description: Option<string>)

  datatype PostOutcome =
    | Unauthorized           // 401
    | NameRequired           // 400
    | Created(playlist: Playlist)

  function StatusCode(o: PostOutcome): int {
    match o
    case Unauthorized => 401
    case NameRequired => 400
    case Created(_) => 200
  }

  /** `description?.trim() || null`. */
  function NormalizeDescription(d: Option<string>): (r: Option<string>)
    ensures r.Some? <==> d.Some? && !IsBlank(d.value)
    ensures r.Some? ==> r.value == Trim(d.value) && r.value != ""
  {
    if d.Some? && Trim(d.value) != "" then Some(Trim(d.value)) else None
  }

  /** `POST /api/playlists`: 401 without a user id, then 400 for a missing or
      blank name, and otherwise a new playlist appended to the store with the
      trimmed name and description, published and approved, owned by the
      caller. `id` is the id the store assigns; `rating` starts at 0. */
  function Post(store: seq<Playlist>, userId: Option<string>, body: CreateBody, id: string, now: int)
    : (r: (PostOutcome, seq<Playlist>))
    ensures userId.None? || userId.value == "" ==> r.0 == Unauthorized
    ensures userId.Some? && userId.value != "" && (body.name.None? || IsBlank(body.name.value)) ==> r.0 == NameRequired
    ensures (userId.Some? && userId.value != "" && body.name.Some? && !IsBlank(body.name.value)) <==> r.0.Created?
    ensures !r.0.Created? ==> r.1 == store
    ensures r.0.Created? ==>
      && userId.Some? && userId.value != "" && body.name.Some? && !IsBlank(body.name.value)
      && r.1 == store + [r.0.playlist]
      && r.0.playlist == Playlist(id, Trim(body.name.value), NormalizeDescription(body.description),
                                  userId.value, false, true, Approved, 0.0, now)
  {
    if userId.None? || userId.value == "" then (Unauthorized, store)
    else if body.name.None? || Trim(body.name.value) == "" then (NameRequired, store)
    else
      var p := Playlist(id, Trim(body.name.value), NormalizeDescription(body.description),
                        userId.value, false, true, Approved, 0.0, now);
      (Created(p), store + [p])
  }

  /** The stored name and description are already trimmed: trimming them again
      changes nothing, and the name is not blank. */
  lemma CreatedTrimmed(store: seq<Playlist>, userId: Option<string>, body: CreateBody, id: string, now: int)
    requires Post(store, userId, body, id, now).0.Created?
    ensures var p := Post(store, userId, body, id, now).0.playlist;
      && Trim(p.name) == p.name && p.name != ""
      && (p.description.Some? ==> Trim(p.description.value) == p.description.value)
  {
    TrimIdempotent(body.name.value);
    if body.description.Some? {
      TrimIdempotent(body.description.value);
    }
  }

  /** A created playlist is listed at once: it matches an empty search and a
      search for its own name. */
  lemma CreatedIsListed(store: seq<Playlist>, userId: Option<string>, body: CreateBody, id: string, now: int)
    requires Post(store, userId, body, id, now).0.Created?
    ensures var (o, s) := Post(store, userId, body, id, now);
      && o.playlist in s
      && Matches(o.playlist, None)
      && Matches(o.playlist, Some(o.playlist.name))
  {
    var p := Post(store, userId, body, id, now).0.playlist;
    var t := ToLower(p.name);
    assert StartsWith(t, t);
  }
}
