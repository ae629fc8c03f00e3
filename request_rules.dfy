/** The third-party classifier and the three `onBeforeRequest` decision
    rules. URL parsing is outside the model: the caller supplies `hostOf`,
    giving the hostname of a parsed URL, or `None` where `new URL(...)`
    throws. */
module RequestRules {

  datatype Option<T> = None | Some(value: T)

  /** A request descriptor: `details.url`, `details.type`,
      `details.initiator` and `details.referrer`. */
  datatype Request = Request(url: string, resourceType: string,
                             initiator: Option<string>, referrer: Option<string>)

  /** What a listener returns: `{ cancel: true }` or `{}`. */
  datatype Verdict = Cancel | Allow

  /** A listener body either returns normally or throws (a `TypeError` from
      `new URL`), which the code does not catch. */
  datatype Outcome<T> = Returns(value: T) | Throws

  /** The JavaScript truthiness test `details.initiator ? ... : null`: an
      absent field and the empty string both count as missing. */
  predicate Present(o: Option<string>)
  {
    o.Some? && o.value != ""
  }

  /** A present field whose URL does not parse makes `new URL` throw. */
  predicate Unparsable(o: Option<string>, hostOf: string -> Option<string>)
  {
    Present(o) && hostOf(o.value).None?
  }

  /** Some present URL of the request does not parse. */
  predicate AnyUnparsable(req: Request, hostOf: string -> Option<string>)
  {
    Unparsable(req.initiator, hostOf) || Unparsable(req.referrer, hostOf) ||
    hostOf(req.url).None?
  }

  /** `isThirdPartyRequest`: parse initiator (if present), referrer (if
      present) and url, in that order; then the request is third-party when
      a present initiator or referrer has a hostname other than the url's. */
  function IsThirdParty(req: Request, hostOf: string -> Option<string>): (r: Outcome<bool>)
    ensures r.Throws? <==> AnyUnparsable(req, hostOf)
    ensures !Present(req.initiator) && !Present(req.referrer) ==> r != Returns(true)
  {
    if Unparsable(req.initiator, hostOf) then Throws
    else if Unparsable(req.referrer, hostOf) then Throws
    else if hostOf(req.url).None? then Throws
    else
      var current := hostOf(req.url).value;
      Returns((Present(req.initiator) && current != hostOf(req.initiator.value).value) ||
              (Present(req.referrer) && current != hostOf(req.referrer.value).value))
  }

  /** The origins the classifier compares against: the present initiator and
      referrer values. */
  function Origins(req: Request): (s: set<string>)
    ensures forall o :: o in s ==> o != ""
  {
    (if Present(req.initiator) then {req.initiator.value} else {}) +
    (if Present(req.referrer) then {req.referrer.value} else {})
  }

  /** Independent statement of the classifier: when every URL parses, the
      request is third-party exactly when some origin it carries has a
      hostname different from the target's. */
  lemma IsThirdPartyIff(req: Request, hostOf: string -> Option<string>)
    requires !AnyUnparsable(req, hostOf)
    ensures IsThirdParty(req, hostOf) ==
            Returns(exists o :: o in Origins(req) && hostOf(o) != hostOf(req.url))
  {
  }

  /** A request without initiator and referrer is not third-party (it only
      throws when its own url does not parse). */
  lemma NoOriginNotThirdParty(req: Request, hostOf: string -> Option<string>)
    requires !Present(req.initiator) && !Present(req.referrer)
    ensures IsThirdParty(req, hostOf) ==
            if hostOf(req.url).None? then Throws else Returns(false)
  {
  }

  /** A parsable initiator with a different hostname makes the request
      third-party, whatever the referrer says, provided nothing throws. */
  lemma DifferentInitiatorIsThirdParty(req: Request, hostOf: string -> Option<string>)
    requires Present(req.initiator) && hostOf(req.initiator.value).Some?
    requires hostOf(req.url).Some? && hostOf(req.url) != hostOf(req.initiator.value)
    requires !Unparsable(req.referrer, hostOf)
    ensures IsThirdParty(req, hostOf) == Returns(true)
  {
  }

  /** The blocked resource types of the first `onBeforeRequest` listener. */
  const BlockedTypes: seq<string> :=
    ["stylesheet", "font", "image", "sub_frame", "object", "script"]

  /** First `onBeforeRequest` listener: cancel a blocked type or a
      third-party request. `||` short-circuits, so the classifier (and its
      URL parsing) only runs for types outside the list. */
  function ResourceRule(req: Request, hostOf: string -> Option<string>): (r: Outcome<Verdict>)
    ensures req.resourceType in BlockedTypes ==> r == Returns(Cancel)
    ensures r == Returns(Allow) <==>
            req.resourceType !in BlockedTypes && IsThirdParty(req, hostOf) == Returns(false)
    ensures r.Throws? <==> req.resourceType !in BlockedTypes && AnyUnparsable(req, hostOf)
  {
    if req.resourceType in BlockedTypes then Returns(Cancel)
    else match IsThirdParty(req, hostOf)
      case Throws => Throws
      case Returns(third) => Returns(if third then Cancel else Allow)
  }

  /** The API names the second `onBeforeRequest` listener looks for. */
  const FingerprintingApis: seq<string> := [
    "navigator.permissions",
    "navigator.geolocation.getCurrentPosition",
    "window.crypto.getRandomValues",
    "navigator.userAgent",
    "navigator.plugins",
    "navigator.languages",
    "window.localStorage",
    "window.sessionStorage"
  ]

  /** `sub` occurs in `s` starting at index `i`. */
  predicate OccursAt(s: string, sub: string, i: int)
  {
    0 <= i && i + |sub| <= |s| && s[i..i + |sub|] == sub
  }

  /** `s.includes(sub)`, computed by trying each start position. */
  function Includes(s: string, sub: string): bool
  {
    (|sub| <= |s| && s[..|sub|] == sub) || (s != [] && Includes(s[1..], sub))
  }

  /** `includes` finds a substring exactly when it occurs at some index. */
  lemma {:induction false} IncludesIff(s: string, sub: string)
    ensures Includes(s, sub) <==> exists i :: OccursAt(s, sub, i)
  {
    if |sub| <= |s| && s[..|sub|] == sub {
      assert s[0..|sub|] == s[..|sub|];
      assert OccursAt(s, sub, 0);
    }
    if s != [] {
      IncludesIff(s[1..], sub);
      if exists i :: OccursAt(s[1..], sub, i) {
        var i :| OccursAt(s[1..], sub, i);
        assert s[i + 1..i + 1 + |sub|] == s[1..][i..i + |sub|];
        assert OccursAt(s, sub, i + 1);
      }
      if exists i :: OccursAt(s, sub, i) {
        var i :| OccursAt(s, sub, i);
        if i > 0 {
          assert s[1..][i - 1..i - 1 + |sub|] == s[i..i + |sub|];
          assert OccursAt(s[1..], sub, i - 1);
        } else {
          assert s[..|sub|] == s[0..|sub|];
        }
      }
    } else if sub == [] {
      assert OccursAt(s, sub, 0);
    }
  }

  /** `apis.some(api => url.includes(api))`. */
  function SomeIncluded(url: string, apis: seq<string>): bool
  {
    apis != [] && (Includes(url, apis[0]) || SomeIncluded(url, apis[1..]))
  }

  lemma {:induction false} SomeIncludedIff(url: string, apis: seq<string>)
    ensures SomeIncluded(url, apis) <==> exists k :: 0 <= k < |apis| && Includes(url, apis[k])
  {
    if apis != [] {
      SomeIncludedIff(url, apis[1..]);
      if exists k :: 0 <= k < |apis| && Includes(url, apis[k]) {
        var k :| 0 <= k < |apis| && Includes(url, apis[k]);
        if k > 0 { assert apis[1..][k - 1] == apis[k]; }
      }
      if exists k :: 0 <= k < |apis[1..]| && Includes(url, apis[1..][k]) {
        var k :| 0 <= k < |apis[1..]| && Includes(url, apis[1..][k]);
        assert apis[k + 1] == apis[1..][k];
      }
    }
  }

  /** Second `onBeforeRequest` listener: cancel a request whose url contains
      one of the API names. */
  function FingerprintingApiRule(url: string): Verdict
  {
    if SomeIncluded(url, FingerprintingApis) then Cancel else Allow
  }

  /** The rule cancels exactly the urls in which one of the eight names
      occurs as a substring, at some index; every other url is allowed. */
  lemma FingerprintingApiRuleIff(url: string)
    ensures FingerprintingApiRule(url) == Cancel <==>
            exists k, i :: 0 <= k < |FingerprintingApis| && OccursAt(url, FingerprintingApis[k], i)
  {
    SomeIncludedIff(url, FingerprintingApis);
    forall k | 0 <= k < |FingerprintingApis| {
      IncludesIff(url, FingerprintingApis[k]);
    }
  }

  /** One occurrence of one of the names is enough to cancel. */
  lemma ApiOccurrenceCancels(url: string, k: int, i: int)
    requires 0 <= k < |FingerprintingApis| && OccursAt(url, FingerprintingApis[k], i)
    ensures FingerprintingApiRule(url) == Cancel
  {
    FingerprintingApiRuleIff(url);
  }

  /** Third `onBeforeRequest` listener: cancel every stylesheet. */
  function StylesheetRule(resourceType: string): (r: Verdict)
    ensures r == Cancel <==> resourceType == "stylesheet"
  {
    if resourceType == "stylesheet" then Cancel else Allow
  }

  /** The stylesheet rule is redundant: whatever it cancels, the first rule
      cancels too, whatever the url and its origins. */
  lemma StylesheetRuleSubsumed(req: Request, hostOf: string -> Option<string>)
    requires StylesheetRule(req.resourceType) == Cancel
    ensures ResourceRule(req, hostOf) == Returns(Cancel)
  {
  }
}
