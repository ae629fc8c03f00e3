/** The three header listeners as they run: each receives the host's
    `details` object and either mutates its header array in place (the
    Cookie / Set-Cookie strip, via `splice`) or replaces the array by a
    filtered copy (the two blocklists), then returns that array. */
module Listeners {
  import opened Headers
  import opened HeaderFilters
  import opened FirstMatch

  /** A JavaScript array of header entries: an object whose contents
      `splice` changes in place. */
  class HeaderArray {
    var items: seq<Header>

    constructor (items: seq<Header>)
      ensures this.items == items
    {
      this.items := items;
    }

    /** `splice(i, 1)`: removes the entry at `i`, shifting later ones down. */
    method Splice(i: nat)
      requires i < |items|
      modifies this
      ensures items == old(items[..i] + items[i + 1..])
    {
      items := items[..i] + items[i + 1..];
    }
  }

  /** The `details` of an `onBeforeSendHeaders` event (only the field the
      listeners read or write). */
  class SendHeadersDetails {
    var requestHeaders: HeaderArray

    constructor (requestHeaders: HeaderArray)
      ensures this.requestHeaders == requestHeaders
    {
      this.requestHeaders := requestHeaders;
    }
  }

  /** The `details` of an `onHeadersReceived` event. */
  class HeadersReceivedDetails {
    var responseHeaders: HeaderArray

    constructor (responseHeaders: HeaderArray)
      ensures this.responseHeaders == responseHeaders
    {
      this.responseHeaders := responseHeaders;
    }
  }

  /** The indexed loop shared by both cookie listeners: scan from index 0,
      splice out the first entry whose lower-cased name is `name`, stop. */
  method SpliceFirstNamed(headers: HeaderArray, name: string)
    modifies headers
    ensures headers.items == RemoveFirst(old(headers.items), name)
  {
    ghost var removed := false;
    var i := 0;
    while i < |headers.items|
      invariant 0 <= i <= |headers.items|
      invariant headers.items == old(headers.items)
      invariant forall j :: 0 <= j < i ==> !IsNamed(headers.items[j], name)
    {
      if IsNamed(headers.items[i], name) {
        RemoveFirstAt(headers.items, name, i);
        headers.Splice(i);
        removed := true;
        break;
      }
      i := i + 1;
    }
    if !removed {
      RemoveFirstUnchangedIff(headers.items, name);
    }
  }

  /** Listener at background.js:32-43: drops the first outgoing `Cookie`
      header from the request's own header array and returns that array. */
  method BlockOutgoingCookies(details: SendHeadersDetails) returns (requestHeaders: HeaderArray)
    modifies details.requestHeaders
    ensures requestHeaders == details.requestHeaders
    ensures requestHeaders.items == RemoveFirst(old(details.requestHeaders.items), "cookie")
  {
    SpliceFirstNamed(details.requestHeaders, "cookie");
    requestHeaders := details.requestHeaders;
  }

  /** Listener at background.js:50-61: drops the first incoming `Set-Cookie`
      header from the response's own header array and returns that array. */
  method BlockIncomingCookies(details: HeadersReceivedDetails) returns (responseHeaders: HeaderArray)
    modifies details.responseHeaders
    ensures responseHeaders == details.responseHeaders
    ensures responseHeaders.items == RemoveFirst(old(details.responseHeaders.items), "set-cookie")
  {
    SpliceFirstNamed(details.responseHeaders, "set-cookie");
    responseHeaders := details.responseHeaders;
  }

  /** `details.requestHeaders = details.requestHeaders.filter(...)`: a new
      array replaces the field; the array the host passed in is untouched. */
  method ReplaceFiltered(details: SendHeadersDetails, blocked: seq<string>) returns (requestHeaders: HeaderArray)
    modifies details`requestHeaders
    ensures fresh(details.requestHeaders)
    ensures requestHeaders == details.requestHeaders
    ensures requestHeaders.items == FilterOut(old(details.requestHeaders.items), blocked)
    ensures old(details.requestHeaders).items == old(details.requestHeaders.items)
  {
    var filtered := new HeaderArray(FilterOut(details.requestHeaders.items, blocked));
    details.requestHeaders := filtered;
    requestHeaders := details.requestHeaders;
  }

  /** Listener at background.js:68-84: the fingerprinting-header blocklist. */
  method BlockFingerprintingHeaders(details: SendHeadersDetails) returns (requestHeaders: HeaderArray)
    modifies details`requestHeaders
    ensures fresh(details.requestHeaders)
    ensures requestHeaders == details.requestHeaders
    ensures requestHeaders.items == FilterOut(old(details.requestHeaders.items), FingerprintingHeaders)
    ensures old(details.requestHeaders).items == old(details.requestHeaders.items)
  {
    requestHeaders := ReplaceFiltered(details, FingerprintingHeaders);
  }

  /** Listener at background.js:130-144: the browser/OS-header blocklist. */
  method BlockBrowserOSHeaders(details: SendHeadersDetails) returns (requestHeaders: HeaderArray)
    modifies details`requestHeaders
    ensures fresh(details.requestHeaders)
    ensures requestHeaders == details.requestHeaders
    ensures requestHeaders.items == FilterOut(old(details.requestHeaders.items), BrowserOSHeaders)
    ensures old(details.requestHeaders).items == old(details.requestHeaders.items)
  {
    requestHeaders := ReplaceFiltered(details, BrowserOSHeaders);
  }
}
