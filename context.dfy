/**
 * The flag-evaluation context built for every inbound request
 * (`createLDContext`): a multi-kind context with a user, a location and a
 * device part, every field derived from the request with a default for
 * each missing input.
 */
module Context {
  import opened Js
  import opened Headers
  import opened Strings

  /** The part of an inbound request the context builder reads. */
  datatype IngressRequest = IngressRequest(headers: Headers, userLocation: Option<UserLocation>)

  /** The geolocation the edge runtime may attach to a request. */
  datatype UserLocation = UserLocation(country: Option<string>)

  datatype UserContext = UserContext(key: string, anonymous: bool)
  datatype LocationContext = LocationContext(key: string, country: string)
  datatype DeviceAttributes = DeviceAttributes(isMobile: bool)
  datatype DeviceContext = DeviceContext(key: string, custom: DeviceAttributes)
  datatype MultiContext = MultiContext(
    kind: string,
    user: UserContext,
    location: LocationContext,
    device: DeviceContext)

  const UserIdHeader: string := "X-User-ID"
  const UserAgentHeader: string := "User-Agent"
  const AnonymousKey: string := "anonymous"
  const Unknown: string := "unknown"

  /** The alternatives of the pattern `/Mobile|Android|iPhone|iPad/`. */
  const MobileIndicators: seq<string> := ["Mobile", "Android", "iPhone", "iPad"]

  /** The first `X-User-ID` value, if there is one. */
  function UserId(request: IngressRequest): Option<string>
  {
    FirstValue(request.headers, UserIdHeader)
  }

  /** The string the mobile pattern is matched against: the first `User-Agent` value, or `unknown`. */
  function UserAgent(request: IngressRequest): (r: string)
    ensures Falsy(FirstValue(request.headers, UserAgentHeader)) ==> r == Unknown
    ensures !Falsy(FirstValue(request.headers, UserAgentHeader)) ==>
      request.headers[UserAgentHeader][0] == r
    ensures r != ""
  {
    Or(FirstValue(request.headers, UserAgentHeader), Unknown)
  }

  /** The country the runtime reports, if it reports a location with one. */
  function Country(request: IngressRequest): (r: Option<string>)
    ensures r.None? <==> request.userLocation.None? || request.userLocation.value.country.None?
    ensures r.Some? ==> request.userLocation == Some(UserLocation(r))
  {
    if request.userLocation.Some? then request.userLocation.value.country else None
  }

  /**
   * `createLDContext`. Every input has a default, so the builder is total.
   * The user is anonymous exactly when the first `X-User-ID` value is missing
   * or empty; an identified user keeps that value as key, even when it is the
   * word `anonymous`. The device is mobile exactly when one of the four
   * indicators occurs, case-sensitively, in the user agent string.
   */
  function CreateLDContext(request: IngressRequest): (r: MultiContext)
    ensures r.kind == "multi"
    ensures r.location.key == "location-context" && r.device.key == "device-context"
    ensures r.user.anonymous <==> UserId(request).None? || UserId(request).value == ""
    ensures r.user.anonymous ==> r.user.key == AnonymousKey
    ensures !r.user.anonymous ==> UserId(request) == Some(r.user.key)
    ensures r.user.key != ""
    ensures Country(request).Some? && Country(request).value != "" ==> r.location.country == Country(request).value
    ensures Country(request).None? || Country(request).value == "" ==> r.location.country == Unknown
    ensures r.device.custom.isMobile <==>
      exists k :: 0 <= k < |MobileIndicators| && Contains(UserAgent(request), MobileIndicators[k])
  {
    var isMobile := RegexTest(MobileIndicators, UserAgent(request));
    MultiContext(
      "multi",
      UserContext(Or(UserId(request), AnonymousKey), Falsy(UserId(request))),
      LocationContext("location-context", Or(Country(request), Unknown)),
      DeviceContext("device-context", DeviceAttributes(isMobile)))
  }

  /**
   * A string that avoids the pairs `ob`, `An` and `iP` holds none of the
   * indicators (each indicator contains one of these pairs).
   */
  lemma NoIndicator(s: string)
    requires AvoidsPair(s, 'o', 'b') && AvoidsPair(s, 'A', 'n') && AvoidsPair(s, 'i', 'P')
    ensures forall k :: 0 <= k < |MobileIndicators| ==> !Contains(s, MobileIndicators[k])
  {
    AvoidsPairExcludes(s, MobileIndicators[0], 1);
    AvoidsPairExcludes(s, MobileIndicators[1], 0);
    AvoidsPairExcludes(s, MobileIndicators[2], 0);
    AvoidsPairExcludes(s, MobileIndicators[3], 0);
  }

  /**
   * With no usable `User-Agent` value the pattern is matched against
   * `unknown`, which holds none of the indicators: the device is not mobile.
   */
  lemma MissingUserAgentIsNotMobile(request: IngressRequest)
    requires Falsy(FirstValue(request.headers, UserAgentHeader))
    ensures UserAgent(request) == Unknown
    ensures !CreateLDContext(request).device.custom.isMobile
  {
    assert UserAgent(request) == Unknown;
    assert AvoidsPair(Unknown, 'o', 'b') && AvoidsPair(Unknown, 'A', 'n') && AvoidsPair(Unknown, 'i', 'P');
    NoIndicator(Unknown);
  }

  /** A request carrying only the given `User-Agent` value. */
  function WithUserAgent(ua: string): IngressRequest
  {
    IngressRequest(map[UserAgentHeader := [ua]], None)
  }

  const DesktopUserAgent: string := "Mozilla/5.0 (Windows NT 10.0; Win64; x64)"
  const PhoneUserAgent: string := "Mozilla/5.0 (" + "iPhone" + "; CPU iPhone OS 17_0 like Mac OS X)"

  lemma DesktopAvoidsOb() ensures AvoidsPair(DesktopUserAgent, 'o', 'b') {}
  lemma DesktopAvoidsAn() ensures AvoidsPair(DesktopUserAgent, 'A', 'n') {}
  lemma DesktopAvoidsIP() ensures AvoidsPair(DesktopUserAgent, 'i', 'P') {}

  /** A desktop browser's user agent holds no indicator: not mobile. */
  lemma DesktopIsNotMobile()
    ensures !CreateLDContext(WithUserAgent(DesktopUserAgent)).device.custom.isMobile
  {
    assert UserAgent(WithUserAgent(DesktopUserAgent)) == DesktopUserAgent;
    DesktopAvoidsOb();
    DesktopAvoidsAn();
    DesktopAvoidsIP();
    NoIndicator(DesktopUserAgent);
  }

  /** A phone's user agent holds `iPhone`: mobile. */
  lemma PhoneIsMobile()
    ensures CreateLDContext(WithUserAgent(PhoneUserAgent)).device.custom.isMobile
  {
    assert UserAgent(WithUserAgent(PhoneUserAgent)) == PhoneUserAgent;
    ContainsMiddle("Mozilla/5.0 (", MobileIndicators[2], "; CPU iPhone OS 17_0 like Mac OS X)");
  }
}
