/** The audio proxy rewrite of `lib/audio-proxy.ts`: Deezer CDN streams are
    played through the application's own `/api/audio/proxy` route, with the
    original url as its `url` query parameter. */
module AudioProxy {
  import opened Wrappers
  import opened JsText
  import Uri

  const ProxyPath: string := "/api/audio/proxy"

  /** `needsAudioProxy(url)`. */
  predicate NeedsAudioProxy(url: string) {
    Contains(url, "dzcdn.net")
  }

  /** `getProxyAudioUrl(originalUrl)`. */
  function GetProxyAudioUrl(originalUrl: string): (r: string)
    ensures !NeedsAudioProxy(originalUrl) ==> r == originalUrl
    ensures NeedsAudioProxy(originalUrl) ==> r == ProxyPath + "?url=" + Uri.EncodeUriComponent(originalUrl)
  {
    if !NeedsAudioProxy(originalUrl) then originalUrl
    else ProxyPath + "?url=" + Uri.EncodeUriComponent(originalUrl)
  }

  /** The url is left as it is exactly when it needs no proxy; a proxied url
      is strictly longer, since the encoding never shortens its input. */
  lemma ProxyChangesIffNeeded(url: string)
    ensures GetProxyAudioUrl(url) == url <==> !NeedsAudioProxy(url)
    ensures NeedsAudioProxy(url) ==> |GetProxyAudioUrl(url)| > |url|
  {
    Uri.EncodedLength(url);
  }

  /** The proxy route reads the original url back: the `url` parameter of the
      rewritten url decodes to the url that was rewritten. */
  lemma ProxyRoundTrip(url: string)
    requires NeedsAudioProxy(url)
    ensures Uri.GetParam(GetProxyAudioUrl(url), "url") == Some(Uri.EncodeUriComponent(url))
    ensures Uri.DecodeUriComponent(Uri.EncodeUriComponent(url)) == Some(url)
  {
    var e := Uri.EncodeUriComponent(url);
    Uri.EncodedAlphabet(url);
    forall k | 0 <= k < |e| ensures e[k] != '&' && e[k] != '#' {
      assert e[k] == '%' || Uri.IsUnreserved(e[k]);
    }
    assert ProxyPath + "?url=" + e == ProxyPath + "?" + "url" + "=" + e;
    Uri.GetSingleParam(ProxyPath, "url", e);
    Uri.DecodeEncode(url);
  }
}
