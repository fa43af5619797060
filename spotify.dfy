/** The Spotify client of `lib/spotify.ts`: a client-credentials access token
    cached in two fields, the Basic authorization header of the token request,
    and the two lookups that use the token. The clock is the `now` parameter
    (milliseconds since the epoch); the token endpoint is a function from the
    Authorization header to the decoded response, and the Web API a function
    from request URL and Bearer header (`None` for a response that is not ok). */
module Spotify {
  import opened Wrappers
  import opened JsText
  import opened Tracks
  import Utf8
  import Base64
  import Uri

  /** The decoded body of a successful token response. */
  datatype TokenResponse = TokenResponse(accessToken: string, expiresIn: int)

  const DefaultSearchLimit: nat := 20

  /** The cache test of `getAccessToken`, with JavaScript truthiness: an empty
      token or an expiry of 0 counts as no token. */
  predicate CacheHit(accessToken: Option<string>, tokenExpiresAt: Option<int>, now: int) {
    && accessToken.Some? && accessToken.value != ""
    && tokenExpiresAt.Some? && tokenExpiresAt.value != 0
    && now < tokenExpiresAt.value
  }

  /** A token just stored from a response with a positive lifetime is served
      from the cache until it expires; an empty token never is. */
  lemma FreshTokenIsCached(token: string, now: int, expiresIn: int, later: int)
    requires now >= 0 && expiresIn > 0
    ensures token != "" && now <= later < now + expiresIn * 1000 ==>
      CacheHit(Some(token), Some(now + expiresIn * 1000), later)
    ensures later >= now + expiresIn * 1000 ==> !CacheHit(Some(token), Some(now + expiresIn * 1000), later)
    ensures !CacheHit(Some(""), Some(now + expiresIn * 1000), later)
  {
  }

  /** `Buffer.from(text).toString('base64')` behind `Basic` of the token request. */
  function BasicAuthorization(clientId: string, clientSecret: string): string {
    "Basic " + Base64.EncodeText(clientId + ":" + clientSecret)
  }

  /** The credentials come back from the header: its base 64 part decodes to
      the UTF-8 text `clientId:clientSecret`, which splits at its first colon
      into the two credentials when the id has no colon. */
  lemma BasicAuthorizationRoundTrip(clientId: string, clientSecret: string)
    requires forall k :: 0 <= k < |clientId| ==> clientId[k] != ':'
    ensures var h := BasicAuthorization(clientId, clientSecret);
      && h[..6] == "Basic "
      && Base64.Decode(h[6..]) == Some(Utf8.Encode(clientId + ":" + clientSecret))
    ensures Utf8.Decode(Utf8.Encode(clientId + ":" + clientSecret)) == Some(clientId + ":" + clientSecret)
    ensures var text := clientId + ":" + clientSecret;
      Uri.IndexOf(text, ':') == Some(|clientId|) && text[..|clientId|] == clientId && text[|clientId| + 1..] == clientSecret
  {
    var text := clientId + ":" + clientSecret;
    var h := BasicAuthorization(clientId, clientSecret);
    assert h[6..] == Base64.EncodeText(text);
    Base64.DecodeEncodeText(text);
    Uri.IndexOfAt(text, ':', |clientId|);
    assert text[..|clientId|] == clientId;
    assert text[|clientId| + 1..] == clientSecret;
  }

  /** The request of `searchTracks`: the form `q`, `type=track`, `limit`, `market=US`. */
  function SearchUrl(query: string, limit: nat): string {
    "https://api.spotify.com/v1/search?q=" + Uri.FormEncode(query) + "&type=track&limit=" + NatToString(limit) + "&market=US"
  }

  function TrackUrl(trackId: string): string {
    "https://api.spotify.com/v1/tracks/" + trackId
  }

  class SpotifyApi {
    const clientId: string
    const clientSecret: string
    var accessToken: Option<string>
    var tokenExpiresAt: Option<int>

    /** The credentials are read once, here; the cache starts empty. */
    constructor(clientId: string, clientSecret: string)
      ensures this.clientId == clientId && this.clientSecret == clientSecret
      ensures accessToken == None && tokenExpiresAt == None
    {
      this.clientId := clientId;
      this.clientSecret := clientSecret;
      accessToken := None;
      tokenExpiresAt := None;
    }

    function AuthorizationHeader(): string {
      BasicAuthorization(clientId, clientSecret)
    }

    /** The token a call of `getAccessToken` at `now` returns: the cached one on
        a hit, otherwise the one the endpoint hands out; `None` when the
        request fails (the call throws). */
    function TokenAt(now: int, tokenEndpoint: string -> Option<TokenResponse>): Option<string>
      reads this
    {
      if CacheHit(accessToken, tokenExpiresAt, now) then accessToken
      else match tokenEndpoint(AuthorizationHeader())
        case None => None
        case Some(resp) => Some(resp.accessToken)
    }

    /** `getAccessToken()`. The clock is read twice: `now` for the cache test,
        `nowAfter` once the token response has arrived. `requested` says
        whether the token endpoint was called. A hit changes nothing; a failed
        request changes nothing and returns `None`; a successful one stores
        the token and its expiry, `expires_in` seconds after `nowAfter`. */
    method GetAccessToken(now: int, nowAfter: int, tokenEndpoint: string -> Option<TokenResponse>)
        returns (token: Option<string>, requested: bool)
      requires now <= nowAfter
      modifies this
      ensures requested <==> !old(CacheHit(accessToken, tokenExpiresAt, now))
      ensures token == old(TokenAt(now, tokenEndpoint))
      ensures !requested ==> token == old(accessToken) && unchanged(this)
      ensures requested && tokenEndpoint(AuthorizationHeader()).None? ==> token.None? && unchanged(this)
      ensures requested && tokenEndpoint(AuthorizationHeader()).Some? ==>
        var resp := tokenEndpoint(AuthorizationHeader()).value;
        && accessToken == Some(resp.accessToken)
        && tokenExpiresAt == Some(nowAfter + resp.expiresIn * 1000)
    {
      if CacheHit(accessToken, tokenExpiresAt, now) {
        return accessToken, false;
      }
      var response := tokenEndpoint(AuthorizationHeader());
      if response.None? {
        return None, true;
      }
      accessToken := Some(response.value.accessToken);
      tokenExpiresAt := Some(nowAfter + response.value.expiresIn * 1000);
      return accessToken, true;
    }

    /** `searchTracks(query, limit = 20)`: every item of the response, none
        dropped. `None` when the token or the search request fails. The cache
        is left as `GetAccessToken` leaves it, with the clock read at `now` and
        at `nowAfter`. */
    method SearchTracks(now: int, nowAfter: int, query: string, limit: Option<nat>,
                        tokenEndpoint: string -> Option<TokenResponse>,
                        api: (string, string) -> Option<seq<Track>>)
      returns (r: Option<seq<Track>>)
      requires now <= nowAfter
      modifies this
      ensures var url := SearchUrl(query, limit.GetOr(DefaultSearchLimit));
        r == match old(TokenAt(now, tokenEndpoint))
             case None => None
             case Some(t) => api(url, "Bearer " + t)
      ensures old(CacheHit(accessToken, tokenExpiresAt, now)) || tokenEndpoint(AuthorizationHeader()).None? ==> unchanged(this)
      ensures !old(CacheHit(accessToken, tokenExpiresAt, now)) && tokenEndpoint(AuthorizationHeader()).Some? ==>
        var resp := tokenEndpoint(AuthorizationHeader()).value;
        && accessToken == Some(resp.accessToken)
        && tokenExpiresAt == Some(nowAfter + resp.expiresIn * 1000)
    {
      var token, _ := GetAccessToken(now, nowAfter, tokenEndpoint);
      if token.None? {
        return None;
      }
      r := api(SearchUrl(query, limit.GetOr(DefaultSearchLimit)), "Bearer " + token.value);
    }

    /** `getTrack(trackId)`: the record the Web API returns for the id. */
    method GetTrack(now: int, nowAfter: int, trackId: string,
                    tokenEndpoint: string -> Option<TokenResponse>,
                    api: (string, string) -> Option<Track>)
      returns (r: Option<Track>)
      requires now <= nowAfter
      modifies this
      ensures r == match old(TokenAt(now, tokenEndpoint))
             case None => None
             case Some(t) => api(TrackUrl(trackId), "Bearer " + t)
      ensures old(CacheHit(accessToken, tokenExpiresAt, now)) || tokenEndpoint(AuthorizationHeader()).None? ==> unchanged(this)
      ensures !old(CacheHit(accessToken, tokenExpiresAt, now)) && tokenEndpoint(AuthorizationHeader()).Some? ==>
        var resp := tokenEndpoint(AuthorizationHeader()).value;
        && accessToken == Some(resp.accessToken)
        && tokenExpiresAt == Some(nowAfter + resp.expiresIn * 1000)
    {
      var token, _ := GetAccessToken(now, nowAfter, tokenEndpoint);
      if token.None? {
        return None;
      }
      r := api(TrackUrl(trackId), "Bearer " + token.value);
    }
  }

  /** A refresh, then a second call as soon as the first has returned: after a
      successful refresh with a positive lifetime and a non-empty token, the
      second call is served from the cache and returns the same token without
      a request. */
  method RefreshThenReuse(api: SpotifyApi, now: int, nowAfter: int, tokenEndpoint: string -> Option<TokenResponse>)
      returns (first: Option<string>, second: Option<string>, secondRequested: bool)
    requires 0 <= now <= nowAfter
    requires !CacheHit(api.accessToken, api.tokenExpiresAt, now)
    requires tokenEndpoint(api.AuthorizationHeader()).Some?
    requires tokenEndpoint(api.AuthorizationHeader()).value.accessToken != ""
    requires tokenEndpoint(api.AuthorizationHeader()).value.expiresIn > 0
    modifies api
    ensures first == second == Some(tokenEndpoint(api.AuthorizationHeader()).value.accessToken)
    ensures !secondRequested
  {
    var firstRequested;
    first, firstRequested := api.GetAccessToken(now, nowAfter, tokenEndpoint);
    FreshTokenIsCached(first.value, nowAfter, tokenEndpoint(api.AuthorizationHeader()).value.expiresIn, nowAfter);
    second, secondRequested := api.GetAccessToken(nowAfter, nowAfter, tokenEndpoint);
  }
}
