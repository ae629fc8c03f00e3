/** How the listeners of one event combine. The code registers three
    `onBeforeRequest` listeners and three `onBeforeSendHeaders` listeners;
    the functions here are COMPOSITIONS of their bodies (cancel when some
    listener cancels; apply the header listeners one after the other in the
    order of registration), not code of the extension itself. */
module Pipeline {
  import opened Headers
  import opened HeaderFilters
  import opened FirstMatch
  import opened RequestRules

  /** Some `onBeforeRequest` listener returned `{ cancel: true }`; a listener
      that throws returned nothing, so it does not count as cancelling. */
  function AnyListenerCancels(req: Request, hostOf: string -> Option<string>): (r: bool)
    ensures req.resourceType in BlockedTypes ==> r
    ensures r <==> ResourceRule(req, hostOf) == Returns(Cancel) ||
                   FingerprintingApiRule(req.url) == Cancel
  {
    ResourceRule(req, hostOf) == Returns(Cancel) ||
    FingerprintingApiRule(req.url) == Cancel ||
    StylesheetRule(req.resourceType) == Cancel
  }

  /** The three `onBeforeSendHeaders` listeners in registration order:
      cookie strip, fingerprinting blocklist, browser/OS blocklist. */
  function SanitizeRequestHeaders(hs: seq<Header>): (r: seq<Header>)
    ensures forall k :: 0 <= k < |r| ==> Lower(r[k].name) !in FingerprintingHeaders
    ensures forall k :: 0 <= k < |r| ==> Lower(r[k].name) !in BrowserOSHeaders
  {
    FilterOut(FilterOut(RemoveFirst(hs, "cookie"), FingerprintingHeaders), BrowserOSHeaders)
  }

  /** The one `onHeadersReceived` listener. */
  function SanitizeResponseHeaders(hs: seq<Header>): (r: seq<Header>)
    ensures |r| == if HasNamed(hs, "set-cookie") then |hs| - 1 else |hs|
  {
    RemoveFirst(hs, "set-cookie")
  }

  /** Both blocklists together. */
  const RequestBlocklist: seq<string> := FingerprintingHeaders + BrowserOSHeaders

  /** The request-header result is the cookie strip applied after one
      filter with both lists. */
  lemma SanitizeRequestHeadersAsOneFilter(hs: seq<Header>)
    ensures SanitizeRequestHeaders(hs) == RemoveFirst(FilterOut(hs, RequestBlocklist), "cookie")
  {
    FilterOutTwice(RemoveFirst(hs, "cookie"), FingerprintingHeaders, BrowserOSHeaders);
    RemoveFirstFilterOutCommute(hs, "cookie", RequestBlocklist);
  }

  /** The request-header result does not depend on the order in which the
      host runs the three listeners: the blocklists may run in either order,
      before or after the cookie strip. */
  lemma SanitizeRequestHeadersOrderFree(hs: seq<Header>)
    ensures SanitizeRequestHeaders(hs) ==
            FilterOut(FilterOut(RemoveFirst(hs, "cookie"), BrowserOSHeaders), FingerprintingHeaders)
    ensures SanitizeRequestHeaders(hs) ==
            RemoveFirst(FilterOut(FilterOut(hs, BrowserOSHeaders), FingerprintingHeaders), "cookie")
  {
    SanitizeRequestHeadersAsOneFilter(hs);
    FilterOutCommute(RemoveFirst(hs, "cookie"), FingerprintingHeaders, BrowserOSHeaders);
    FilterOutTwice(hs, BrowserOSHeaders, FingerprintingHeaders);
    FilterOutSameMembers(hs, BrowserOSHeaders + FingerprintingHeaders, RequestBlocklist);
  }

  /** Running the request listeners again on their own output changes it
      exactly when the input held two or more Cookie headers: the blocklists
      are idempotent, the first-match cookie strip is not. */
  lemma SanitizeRequestHeadersIdempotentIff(hs: seq<Header>)
    ensures SanitizeRequestHeaders(SanitizeRequestHeaders(hs)) == SanitizeRequestHeaders(hs)
            <==> CountNamed(hs, "cookie") <= 1
  {
    SanitizeRequestHeadersAsOneFilter(hs);
    SanitizeRequestHeadersAsOneFilter(SanitizeRequestHeaders(hs));
    StripAfterFilterIdempotentIff(hs, "cookie", RequestBlocklist);
  }

  /** Scenario: a script from the page's own host is cancelled because of
      its type. */
  lemma ScenarioScriptCancelled(hostOf: string -> Option<string>)
    ensures AnyListenerCancels(Request("https://a.com/x", "script", Some("https://a.com"), None), hostOf)
  {
  }

  /** Scenario: an XHR to a.com started from b.com is third-party and is
      cancelled. */
  lemma ScenarioCrossOriginCancelled(hostOf: string -> Option<string>)
    requires hostOf("https://a.com/api") == Some("a.com")
    requires hostOf("https://b.com") == Some("b.com")
    ensures IsThirdParty(Request("https://a.com/api", "xmlhttprequest", Some("https://b.com"), None), hostOf)
            == Returns(true)
    ensures AnyListenerCancels(Request("https://a.com/api", "xmlhttprequest", Some("https://b.com"), None), hostOf)
  {
    assert "xmlhttprequest" !in BlockedTypes;
  }

  /** Scenario: a url naming a geolocation API is cancelled by the
      fingerprinting-API rule. */
  lemma ScenarioApiUrlCancelled(url: string)
    requires url == "https://example.com/navigator.geolocation.getCurrentPosition"
    ensures FingerprintingApiRule(url) == Cancel
  {
    assert url[20..] == FingerprintingApis[1];
    ApiOccurrenceCancels(url, 1, 20);
  }

  /** Scenario: Cookie and User-Agent are stripped, Accept survives. */
  lemma ScenarioRequestHeaders()
    ensures SanitizeRequestHeaders([Header("Cookie", "id=1"), Header("User-Agent", "X"), Header("Accept", "")])
            == [Header("Accept", "")]
  {
    var hs := [Header("Cookie", "id=1"), Header("User-Agent", "X"), Header("Accept", "")];
    assert Lower("Cookie") == "cookie";
    assert Lower("User-Agent") == "user-agent";
    assert Lower("Accept") == "accept";
    assert RemoveFirst(hs, "cookie") == hs[1..];
  }

  /** Scenario: Set-Cookie is stripped from a response, Content-Type kept. */
  lemma ScenarioResponseHeaders()
    ensures SanitizeResponseHeaders([Header("Set-Cookie", "a=1"), Header("Content-Type", "text/html")])
            == [Header("Content-Type", "text/html")]
  {
    assert Lower("Set-Cookie") == "set-cookie";
  }

  /** Scenario: of two Set-Cookie headers only the first is stripped; the
      second still reaches the browser. */
  lemma ScenarioSecondSetCookieSurvives()
    ensures SanitizeResponseHeaders([Header("Set-Cookie", "a=1"), Header("set-cookie", "b=2")])
            == [Header("set-cookie", "b=2")]
  {
    assert Lower("Set-Cookie") == "set-cookie";
  }
}
