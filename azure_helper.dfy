/**
 * `AzureHelper`: the subscription id comes from configuration, and the
 * tenant id is learned from the `WWW-Authenticate` header of an
 * unauthenticated request to the subscription, then remembered per
 * subscription for the life of the helper.
 */
module AzureHelper {
  import opened Wrappers
  import opened Errors
  import opened Text
  import Configuration

  const SubscriptionIdKey: string := "SubscriptionId"

  /** The text the pattern `authorization_uri="https:\/\/login\.windows\.net\/([A-Za-z0-9-]*)"` expects before its group. */
  const AuthorizationUriPrefix: string := "authorization_uri=\"https://login.windows.net/"

  /** The first `WWW-Authenticate` header value of a response, with its parameter. */
  datatype AuthenticationHeader = AuthenticationHeader(parameter: Option<string>)

  /** The character class `[A-Za-z0-9-]`. */
  predicate IsTenantIdChar(c: char)
  {
    'A' <= c <= 'Z' || 'a' <= c <= 'z' || '0' <= c <= '9' || c == '-'
  }

  /** The length of the longest run of tenant-id characters starting at `j`: what the greedy `*` takes. */
  function TenantRun(s: string, j: nat): (n: nat)
    requires j <= |s|
    ensures j + n <= |s|
    ensures forall k :: j <= k < j + n ==> IsTenantIdChar(s[k])
    ensures j + n == |s| || !IsTenantIdChar(s[j + n])
    decreases |s| - j
  {
    if j < |s| && IsTenantIdChar(s[j]) then 1 + TenantRun(s, j + 1) else 0
  }

  /**
   * The pattern matches at `i`. The group cannot hold a quote, so once the
   * greedy run is followed by something other than the closing quote, no
   * shorter run helps: backtracking fails at this position.
   */
  predicate MatchesAt(s: string, i: nat)
  {
    i + |AuthorizationUriPrefix| <= |s| && s[i..i + |AuthorizationUriPrefix|] == AuthorizationUriPrefix
    && var j := i + |AuthorizationUriPrefix|;
       j + TenantRun(s, j) < |s| && s[j + TenantRun(s, j)] == '"'
  }

  /** `match.Groups[1].Value` for a match at `i`. */
  function GroupAt(s: string, i: nat): string
    requires MatchesAt(s, i)
  {
    var j := i + |AuthorizationUriPrefix|;
    s[j..j + TenantRun(s, j)]
  }

  /** The scan of `Regex.Match` over start positions, from `i` on: the leftmost match. */
  function FirstMatch(s: string, i: nat): (r: Option<nat>)
    requires i <= |s|
    ensures r.Some? ==> i <= r.value <= |s| && MatchesAt(s, r.value) && forall k :: i <= k < r.value ==> !MatchesAt(s, k)
    ensures r.None? ==> forall k :: i <= k <= |s| ==> !MatchesAt(s, k)
    decreases |s| - i
  {
    if MatchesAt(s, i) then Some(i)
    else if i == |s| then None
    else FirstMatch(s, i + 1)
  }

  /** The tenant id the header parameter carries, if the pattern matches it anywhere. */
  function ExtractTenantId(parameter: string): Option<string>
  {
    match FirstMatch(parameter, 0)
    case None => None
    case Some(i) => Some(GroupAt(parameter, i))
  }

  /**
   * What the header yields: a missing header makes `header.Parameter`
   * throw, a null parameter makes `Regex.Match` throw, no match is
   * reported as not supported.
   */
  function TenantIdFromHeader(header: Option<AuthenticationHeader>): (r: Result<string, Exception>)
    ensures header.None? ==> r == Failure(NullReference)
    ensures header.Some? && header.value.parameter.None? ==> r == Failure(ArgumentNull("input"))
    ensures header.Some? && header.value.parameter.Some? ==>
      match ExtractTenantId(header.value.parameter.value)
      case None => r == Failure(NotSupported("Azure endpoint failed to return the tenantId!"))
      case Some(t) => r == Success(t)
    ensures r.Success? ==>
      header.Some? && header.value.parameter.Some? && ExtractTenantId(header.value.parameter.value) == Some(r.value)
  {
    match header
    case None => Failure(NullReference)
    case Some(h) =>
      match h.parameter
      case None => Failure(ArgumentNull("input"))
      case Some(p) =>
        match ExtractTenantId(p)
        case None => Failure(NotSupported("Azure endpoint failed to return the tenantId!"))
        case Some(t) => Success(t)
  }

  function SubscriptionUrl(subscriptionId: string): string
  {
    "https://management.azure.com/subscriptions/" + subscriptionId + "?api-version=2015-01-01"
  }

  lemma {:induction false} TenantRunIs(s: string, j: nat, n: nat)
    requires j + n <= |s|
    requires forall k :: j <= k < j + n ==> IsTenantIdChar(s[k])
    requires j + n == |s| || !IsTenantIdChar(s[j + n])
    ensures TenantRun(s, j) == n
    decreases n
  {
    if n > 0 {
      TenantRunIs(s, j + 1, n - 1);
    }
  }

  /** A tenant id written after the prefix and closed by a quote is read back exactly, whatever follows. */
  lemma ExtractWrittenTenantId(tenantId: string, rest: string)
    requires forall k :: 0 <= k < |tenantId| ==> IsTenantIdChar(tenantId[k])
    ensures ExtractTenantId(AuthorizationUriPrefix + tenantId + "\"" + rest) == Some(tenantId)
  {
    var s := AuthorizationUriPrefix + tenantId + "\"" + rest;
    var j := |AuthorizationUriPrefix|;
    assert s[..j] == AuthorizationUriPrefix;
    assert forall k :: j <= k < j + |tenantId| ==> s[k] == tenantId[k - j];
    assert s[j + |tenantId|] == '"';
    TenantRunIs(s, j, |tenantId|);
    assert MatchesAt(s, 0);
    assert s[j..j + |tenantId|] == tenantId;
  }

  /** `parameter` holds the prefix, then `t`, then a quote, from position `i`. */
  predicate QuotedAt(parameter: string, i: nat, t: string)
  {
    i + |AuthorizationUriPrefix| + |t| < |parameter|
    && parameter[i..i + |AuthorizationUriPrefix| + |t| + 1] == AuthorizationUriPrefix + t + "\""
  }

  /**
   * What is read is the text between the leftmost prefix that is closed by a
   * quote and that quote, made only of tenant-id characters; no earlier
   * position holds the prefix followed by such a run and a quote.
   */
  lemma ExtractedTenantIdIsQuoted(parameter: string)
    ensures ExtractTenantId(parameter).Some? <==> exists i :: 0 <= i <= |parameter| && MatchesAt(parameter, i)
    ensures ExtractTenantId(parameter).Some? ==>
      var t := ExtractTenantId(parameter).value;
      && (forall k :: 0 <= k < |t| ==> IsTenantIdChar(t[k]))
      && exists i: nat :: QuotedAt(parameter, i, t) && forall k: nat :: 0 <= k < i ==> !MatchesAt(parameter, k)
  {
    var m := FirstMatch(parameter, 0);
    if m.Some? {
      GroupIsQuoted(parameter, m.value);
    }
  }

  lemma GroupIsQuoted(s: string, i: nat)
    requires MatchesAt(s, i)
    ensures QuotedAt(s, i, GroupAt(s, i))
  {
    var j := i + |AuthorizationUriPrefix|;
    var t := GroupAt(s, i);
    assert s[i..j + |t| + 1] == s[i..j] + t + [s[j + |t|]];
  }

  /** An empty group still matches: `authorization_uri="https://login.windows.net/"` yields the empty tenant id. */
  lemma EmptyTenantId(rest: string)
    ensures ExtractTenantId(AuthorizationUriPrefix + "\"" + rest) == Some("")
  {
    ExtractWrittenTenantId("", rest);
    assert AuthorizationUriPrefix + "" + "\"" + rest == AuthorizationUriPrefix + "\"" + rest;
  }

  /** The tenant id and the trailing parameters of the unauthorised answer the tests use. */
  const FakeTenantId: string := "68373267-6C36-4B66-B92F-000000000000"
  const InvalidTokenRest: string := ", error=\"invalid_token\", error_description=\"The authentication failed because of missing 'Authorization' header.\""

  lemma FakeTenantIdChars()
    ensures forall k :: 0 <= k < |FakeTenantId| ==> IsTenantIdChar(FakeTenantId[k])
  {
    forall k | 0 <= k < |FakeTenantId| ensures IsTenantIdChar(FakeTenantId[k]) {
    }
  }

  /** The header of an unauthorised answer from the management endpoint yields its tenant id. */
  lemma UnauthorisedAnswerYieldsTenantId()
    ensures TenantIdFromHeader(Some(AuthenticationHeader(Some(AuthorizationUriPrefix + FakeTenantId + "\"" + InvalidTokenRest))))
      == Success(FakeTenantId)
  {
    FakeTenantIdChars();
    ExtractWrittenTenantId(FakeTenantId, InvalidTokenRest);
  }

  class AzureHelper {
    const configuration: Configuration.Configuration
    /** `_tenantIdLookup`: subscription id to tenant id. */
    var tenantIdLookup: map<string, string>

    constructor(configuration: Configuration.Configuration)
      ensures this.configuration == configuration && tenantIdLookup == map[]
    {
      this.configuration := configuration;
      tenantIdLookup := map[];
    }

    /** `GetRequiredValue<string>("SubscriptionId")`. */
    function GetSubscriptionId(): (r: Result<string, Exception>)
      ensures r.Success? <==> configuration.Get(SubscriptionIdKey).Some?
      ensures r.Success? ==> r.value == configuration.Get(SubscriptionIdKey).value
      ensures r.Failure? ==> r.error.KeyNotFound?
    {
      configuration.GetRequired(SubscriptionIdKey)
    }

    /**
     * `respond` stands for the HTTP endpoint: the first `WWW-Authenticate`
     * header it returns for a url. `requested` is the url fetched, if the
     * cache did not answer. Only a tenant id that was read is cached.
     */
    method GetTenantId(respond: string -> Option<AuthenticationHeader>)
      returns (r: Result<string, Exception>, requested: Option<string>)
      modifies this
      ensures GetSubscriptionId().Failure? ==>
        r == Failure(GetSubscriptionId().error) && requested.None? && tenantIdLookup == old(tenantIdLookup)
      ensures GetSubscriptionId().Success? && GetSubscriptionId().value in old(tenantIdLookup) ==>
        r == Success(old(tenantIdLookup)[GetSubscriptionId().value]) && requested.None?
        && tenantIdLookup == old(tenantIdLookup)
      ensures GetSubscriptionId().Success? && GetSubscriptionId().value !in old(tenantIdLookup) ==>
        var subscriptionId := GetSubscriptionId().value;
        && requested == Some(SubscriptionUrl(subscriptionId))
        && r == TenantIdFromHeader(respond(SubscriptionUrl(subscriptionId)))
        && tenantIdLookup == (if r.Success? then old(tenantIdLookup)[subscriptionId := r.value] else old(tenantIdLookup))
    {
      var subscription := GetSubscriptionId();
      if subscription.Failure? {
        return Failure(subscription.error), None;
      }
      var subscriptionId := subscription.value;
      if subscriptionId in tenantIdLookup {
        return Success(tenantIdLookup[subscriptionId]), None;
      }
      var url := SubscriptionUrl(subscriptionId);
      requested := Some(url);
      var header := respond(url);
      r := TenantIdFromHeader(header);
      if r.Success? {
        tenantIdLookup := tenantIdLookup[subscriptionId := r.value];
      }
    }
  }

  /** A second lookup is answered from the cache with the same tenant id and no request. */
  method SecondLookupIsCached(helper: AzureHelper, respond: string -> Option<AuthenticationHeader>)
    returns (first: Result<string, Exception>, second: Result<string, Exception>, requested: Option<string>)
    modifies helper
    ensures first.Success? ==> second == first && requested.None?
  {
    var firstRequest;
    first, firstRequest := helper.GetTenantId(respond);
    second, requested := helper.GetTenantId(respond);
  }
}
