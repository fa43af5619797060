/** The freshness gate for Deezer preview URLs of `lib/refresh-preview-url.ts`:
    reading the expiry out of the `hdnea` token of a CDN URL, the five-minute
    safety margin, and the choice between a freshly resolved preview and the
    current one. The clock is the `now` parameter (milliseconds since the
    epoch) and the provider lookup is `Deezer.GetTrack` over a given fetch. */
module PreviewUrl {
  import opened Wrappers
  import opened JsText
  import opened Tracks
  import Uri
  import Deezer

  /** Five minutes, in milliseconds. */
  const Buffer: int := 5 * 60 * 1000

  // ----- The pattern /exp=(\d+)/ -----

  /** The longest run of digits at the front of `s`. */
  function DigitRun(s: string): (r: string)
    ensures IsDigits(r) && |r| <= |s| && s[..|r|] == r
    ensures |r| < |s| ==> !IsDigit(s[|r|])
  {
    if s != [] && IsDigit(s[0]) then [s[0]] + DigitRun(s[1..]) else []
  }

  /** The pattern matches at index `i`: `exp=` followed by at least one digit. */
  predicate MatchAt(h: string, i: int) {
    0 <= i && i + 5 <= |h| && h[i..i + 4] == "exp=" && IsDigit(h[i + 4])
  }

  lemma MatchAtTail(h: string, i: nat)
    requires h != []
    ensures MatchAt(h[1..], i) <==> MatchAt(h, i + 1)
  {
    if i + 5 <= |h[1..]| {
      assert h[1..][i..i + 4] == h[i + 1..i + 5];
    }
  }

  /** `h.match(/exp=(\d+)/)`, the capture group: the digits after the leftmost
      `exp=` that is followed by a digit, as many as there are. */
  function ExpMatch(h: string): (r: Option<string>)
    ensures r.Some? ==> r.value != [] && IsDigits(r.value)
    ensures r.None? <==> forall i :: 0 <= i < |h| ==> !MatchAt(h, i)
    ensures r.Some? ==> exists i :: MatchAt(h, i) && (forall k :: 0 <= k < i ==> !MatchAt(h, k)) && r.value == DigitRun(h[i + 4..])
    decreases |h|
  {
    if MatchAt(h, 0) then Some(DigitRun(h[4..]))
    else if h == [] then None
    else
      var r := ExpMatch(h[1..]);
      if r.Some? then
        (var i :| MatchAt(h[1..], i) && (forall k :: 0 <= k < i ==> !MatchAt(h[1..], k)) && r.value == DigitRun(h[1..][i + 4..]);
         FirstMatchShift(h, i);
         r)
      else
        NoMatchShift(h);
        r
  }

  /** The leftmost match in the tail, one place further in the whole text. */
  lemma FirstMatchShift(h: string, i: nat)
    requires h != [] && !MatchAt(h, 0)
    requires MatchAt(h[1..], i) && forall k :: 0 <= k < i ==> !MatchAt(h[1..], k)
    ensures MatchAt(h, i + 1) && forall k :: 0 <= k < i + 1 ==> !MatchAt(h, k)
    ensures h[1..][i + 4..] == h[i + 5..]
  {
    MatchAtTail(h, i);
    forall k | 0 < k < i + 1 ensures !MatchAt(h, k) {
      MatchAtTail(h, k - 1);
    }
  }

  /** No match in the tail and none at the front is no match at all. */
  lemma NoMatchShift(h: string)
    requires h != [] && !MatchAt(h, 0)
    requires forall i :: 0 <= i < |h[1..]| ==> !MatchAt(h[1..], i)
    ensures forall i :: 0 <= i < |h| ==> !MatchAt(h, i)
  {
    forall i | 0 < i < |h| ensures !MatchAt(h, i) {
      MatchAtTail(h, i - 1);
    }
  }

  // ----- isDeezerUrlExpired -----

  /** The url points at the Deezer CDN and carries an `hdnea=` token. */
  predicate HasDeezerToken(url: string) {
    Contains(url, "dzcdn.net") && Contains(url, "hdnea=")
  }

  /** The expiry of a Deezer CDN url in milliseconds: the `exp` seconds of its
      non-empty `hdnea` parameter times 1000; `None` when any part is missing. */
  function ExpiryMs(url: string): (r: Option<int>)
    ensures r.Some? ==> HasDeezerToken(url)
    ensures r.Some? <==> HasDeezerToken(url) && GetHdnea(url).Some? && ExpMatch(GetHdnea(url).value).Some?
    ensures r.Some? ==> r.value == 1000 * DigitsValue(ExpMatch(GetHdnea(url).value).value)
  {
    if !HasDeezerToken(url) then None
    else match GetHdnea(url)
      case None => None
      case Some(h) =>
        match ExpMatch(h)
        case None => None
        case Some(e) => Some(DigitsValue(e) * 1000)
  }

  /** `searchParams.get('hdnea')` read as a condition: present and non-empty. */
  function GetHdnea(url: string): (r: Option<string>)
    ensures r.Some? <==> Uri.GetParam(url, "hdnea").Some? && Uri.GetParam(url, "hdnea").value != ""
    ensures r.Some? ==> r.value == Uri.GetParam(url, "hdnea").value
  {
    match Uri.GetParam(url, "hdnea")
    case None => None
    case Some(h) => if h != "" then Some(h) else None
  }

  /** `isDeezerUrlExpired(url)` at time `now`: expired once `now` is within
      five minutes of the expiry or past it; never expired when any part of
      the expiry is missing. */
  function IsDeezerUrlExpired(url: string, now: int): (r: bool)
    ensures r <==> ExpiryMs(url).Some? && now >= ExpiryMs(url).value - Buffer
  {
    match ExpiryMs(url)
    case None => false
    case Some(exp) => now >= exp - Buffer
  }

  /** A url without `dzcdn.net` or without `hdnea=` is never expired. */
  lemma NotDeezerNeverExpired(url: string, now: int)
    requires !Contains(url, "dzcdn.net") || !Contains(url, "hdnea=")
    ensures !IsDeezerUrlExpired(url, now)
  {
  }

  /** A token without `exp=<digits>` never makes the url expired. */
  lemma NoExpNeverExpired(url: string, now: int)
    requires forall h :: Uri.GetParam(url, "hdnea") == Some(h) ==> forall i :: 0 <= i < |h| ==> !MatchAt(h, i)
    ensures !IsDeezerUrlExpired(url, now)
  {
  }

  /** An expiry three minutes away already counts as expired; one ten minutes
      away does not. */
  lemma SafetyMargin(url: string, exp: int)
    requires ExpiryMs(url) == Some(exp)
    ensures IsDeezerUrlExpired(url, exp - 3 * 60 * 1000)
    ensures !IsDeezerUrlExpired(url, exp - 10 * 60 * 1000)
  {
  }

  /** Once expired, a url stays expired. */
  lemma ExpiredMonotone(url: string, now: int, later: int)
    requires IsDeezerUrlExpired(url, now) && now <= later
    ensures IsDeezerUrlExpired(url, later)
  {
  }

  /** `exp=` and its seconds at the front of a token whose rest does not
      continue the number: the pattern reads exactly those seconds. */
  lemma ExpMatchFront(e: string, tail: string)
    requires e != [] && IsDigits(e)
    requires tail == [] || !IsDigit(tail[0])
    ensures ExpMatch("exp=" + e + tail) == Some(e)
  {
    var h := "exp=" + e + tail;
    assert h[..4] == "exp=" && h[4] == e[0];
    assert h[4..] == e + tail;
    DigitRunOf(e, tail);
    assert MatchAt(h, 0);
  }

  /** The digit run of digits followed by a non-digit is those digits. */
  lemma {:induction false} DigitRunOf(e: string, tail: string)
    requires IsDigits(e)
    requires tail == [] || !IsDigit(tail[0])
    ensures DigitRun(e + tail) == e
  {
    if e == [] {
      assert e + tail == tail;
    } else {
      assert (e + tail)[1..] == e[1..] + tail;
      DigitRunOf(e[1..], tail);
      assert [e[0]] + e[1..] == e;
    }
  }

  /** The token `exp=<seconds><tail>` has no `&` or `#` when the tail has none. */
  lemma TokenWithoutSeparators(e: string, tail: string)
    requires IsDigits(e)
    requires forall k :: 0 <= k < |tail| ==> tail[k] != '&' && tail[k] != '#'
    ensures var h := "exp=" + e + tail; forall k :: 0 <= k < |h| ==> h[k] != '&' && h[k] != '#'
  {
    var h := "exp=" + e + tail;
    forall k | 0 <= k < |h| ensures h[k] != '&' && h[k] != '#' {
      if 4 <= k < 4 + |e| {
        assert h[k] == e[k - 4];
      } else if k >= 4 + |e| {
        assert h[k] == tail[k - 4 - |e|];
      }
    }
  }

  /** A CDN path followed by `?hdnea=` carries both markers. */
  lemma CdnUrlHasToken(path: string, h: string)
    requires Contains(path, "dzcdn.net")
    ensures HasDeezerToken(path + "?hdnea=" + h)
  {
    var url := path + "?hdnea=" + h;
    ContainsInContext([], path, "?hdnea=" + h, "dzcdn.net");
    assert [] + path + ("?hdnea=" + h) == url;
    assert url[|path| + 1..][..6] == "hdnea=";
    OccursContains(url, "hdnea=", |path| + 1);
  }

  /** The `hdnea` parameter of a url whose only query parameter it is. */
  lemma HdneaOfSingleParam(path: string, h: string)
    requires forall k :: 0 <= k < |path| ==> path[k] != '?' && path[k] != '#'
    requires forall k :: 0 <= k < |h| ==> h[k] != '&' && h[k] != '#'
    ensures Uri.GetParam(path + "?hdnea=" + h, "hdnea") == Some(h)
  {
    assert path + "?hdnea=" + h == path + "?" + "hdnea" + "=" + h;
    Uri.GetSingleParam(path, "hdnea", h);
  }

  /** A CDN url whose only query parameter is `hdnea=exp=<seconds>...` expires
      at those seconds times 1000. */
  lemma ExpiryOfCdnUrl(path: string, e: string, tail: string)
    requires e != [] && IsDigits(e)
    requires Contains(path, "dzcdn.net")
    requires forall k :: 0 <= k < |path| ==> path[k] != '?' && path[k] != '#'
    requires forall k :: 0 <= k < |tail| ==> tail[k] != '&' && tail[k] != '#'
    requires tail == [] || !IsDigit(tail[0])
    ensures ExpiryMs(path + "?hdnea=" + ("exp=" + e + tail)) == Some(1000 * DigitsValue(e))
  {
    var h := "exp=" + e + tail;
    TokenWithoutSeparators(e, tail);
    HdneaOfSingleParam(path, h);
    CdnUrlHasToken(path, h);
    ExpMatchFront(e, tail);
  }

  // ----- refreshPreviewUrl -----

  /** `refreshPreviewUrl(trackId, currentUrl)`: a Deezer id is resolved again;
      its preview is returned when the provider has one, `None` when it has
      none, and the current url when the lookup fails. Any other id keeps the
      current url. */
  function RefreshPreviewUrl(trackId: string, currentUrl: Option<string>, fetch: string -> Option<Deezer.DeezerTrack>): (r: Option<string>)
    ensures !StartsWith(trackId, Deezer.Prefix) ==> r == currentUrl
    ensures StartsWith(trackId, Deezer.Prefix) ==> match fetch(Deezer.TrackUrl(trackId))
      case None => r == currentUrl
      case Some(t) => r == (if t.preview != "" then Some(t.preview) else None)
  {
    if StartsWith(trackId, Deezer.Prefix) then
      match Deezer.GetTrack(trackId, fetch)
      case None => currentUrl
      case Some(track) => if HasPreview(track) then track.previewUrl else None
    else currentUrl
  }

  /** For an id without the prefix the provider is not consulted: the result
      is the same whatever it would answer. */
  lemma NonDeezerIgnoresProvider(trackId: string, currentUrl: Option<string>,
                                 f: string -> Option<Deezer.DeezerTrack>, g: string -> Option<Deezer.DeezerTrack>)
    requires !StartsWith(trackId, Deezer.Prefix)
    ensures RefreshPreviewUrl(trackId, currentUrl, f) == RefreshPreviewUrl(trackId, currentUrl, g) == currentUrl
  {
  }

  /** A refreshed preview, when there is one, is never the empty string. */
  lemma RefreshedNonEmpty(trackId: string, currentUrl: Option<string>, fetch: string -> Option<Deezer.DeezerTrack>)
    requires StartsWith(trackId, Deezer.Prefix) && fetch(Deezer.TrackUrl(trackId)).Some?
    ensures var r := RefreshPreviewUrl(trackId, currentUrl, fetch); r.Some? ==> r.value != ""
  {
  }
}
