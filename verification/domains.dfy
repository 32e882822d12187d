/**
 * The allowlist of link hosts: the two built-in domains, the two suffix rules,
 * and the append-only merge of verified custom domains from the init response.
 */
module Domains {
  import opened Base
  import opened Text

  const PrimaryDomain := "deeplinknow.com"
  const ShortDomain := "deeplink.now"

  /** The set every instance starts from. */
  const BuiltIns: set<string> := {PrimaryDomain, ShortDomain}

  /** `InitResponse.App.CustomDomain`: both fields may be absent in the JSON. */
  datatype CustomDomain = CustomDomain(domain: Option<string>, verified: Option<bool>)

  datatype RateLimits = RateLimits(matchesPerSecond: int, matchesPerDay: int)

  datatype Account = Account(status: string, creditsRemaining: int, rateLimits: RateLimits)

  datatype App = App(
    id: string,
    name: string,
    timezone: string,
    androidPackageName: Option<string>,
    androidSha256Cert: Option<string>,
    iosBundleId: Option<string>,
    iosAppStoreId: Option<string>,
    iosAppPrefix: Option<string>,
    customDomains: seq<CustomDomain>)

  datatype InitResponse = InitResponse(app: App, account: Account)

  /** `host` is `base` itself or a name under it (`<label>.base`). */
  ghost predicate Under(host: string, base: string) {
    host == base || exists k :: 0 <= k <= |host| && host[k..] == "." + base
  }

  /** `isValidDomain`: exact membership, then the two suffix rules; case-sensitive. */
  function IsValidDomain(domains: set<string>, host: string): (ok: bool)
    ensures ok <==> host in domains || Under(host, PrimaryDomain) || Under(host, ShortDomain)
  {
    SuffixRule(host, PrimaryDomain);
    SuffixRule(host, ShortDomain);
    host in domains
    || EndsWith(host, "." + PrimaryDomain) || host == PrimaryDomain
    || EndsWith(host, "." + ShortDomain) || host == ShortDomain
  }

  lemma SuffixRule(host: string, base: string)
    ensures Under(host, base) <==> EndsWith(host, "." + base) || host == base
  {
    var dotted := "." + base;
    if EndsWith(host, dotted) {
      assert host[|host| - |dotted|..] == dotted;
    }
  }

  /** The custom domain the merge accepts: a name is present and `verified == true`. */
  predicate Accepted(c: CustomDomain) {
    c.domain.Some? && c.verified == Some(true)
  }

  /** The names of the accepted custom domains. */
  ghost function AcceptedNames(customs: seq<CustomDomain>): set<string> {
    set k | 0 <= k < |customs| && Accepted(customs[k]) :: customs[k].domain.value
  }

  /** The filter-then-add loop of `initializeSDK`, one custom domain at a time. */
  function MergeVerified(domains: set<string>, customs: seq<CustomDomain>): (r: set<string>)
    decreases |customs|
    ensures r == domains + AcceptedNames(customs)
  {
    if |customs| == 0 then domains
    else
      var added := if Accepted(customs[0]) then {customs[0].domain.value} else {};
      var r := MergeVerified(domains + added, customs[1..]);
      assert AcceptedNames(customs) == added + AcceptedNames(customs[1..]) by {
        forall d | d in AcceptedNames(customs)
          ensures d in added + AcceptedNames(customs[1..])
        {
          var k :| 0 <= k < |customs| && Accepted(customs[k]) && customs[k].domain.value == d;
          if k > 0 {
            assert customs[1..][k - 1] == customs[k];
          }
        }
        forall d | d in AcceptedNames(customs[1..])
          ensures d in AcceptedNames(customs)
        {
          var k :| 0 <= k < |customs[1..]| && Accepted(customs[1..][k]) && customs[1..][k].domain.value == d;
          assert customs[k + 1] == customs[1..][k];
        }
      }
      r
  }

  /** The domain update of `initializeSDK`: only a decoded response changes the set. */
  function ApplyInitResponse(domains: set<string>, response: Option<InitResponse>): (r: set<string>)
    ensures response.None? ==> r == domains
    ensures domains <= r
    ensures response.Some? ==> r == domains + AcceptedNames(response.value.app.customDomains)
  {
    match response
    case None => domains
    case Some(resp) => MergeVerified(domains, resp.app.customDomains)
  }

  /** Merging the same list twice adds nothing the first merge did not. */
  lemma MergeIdempotent(domains: set<string>, customs: seq<CustomDomain>)
    ensures MergeVerified(MergeVerified(domains, customs), customs) == MergeVerified(domains, customs)
  {
  }

  /** The merge only ever adds: every host valid before stays valid, built-ins included. */
  lemma MergeKeepsValidity(domains: set<string>, customs: seq<CustomDomain>, host: string)
    requires IsValidDomain(domains, host)
    ensures IsValidDomain(MergeVerified(domains, customs), host)
    ensures BuiltIns <= domains ==> BuiltIns <= MergeVerified(domains, customs)
  {
  }

  /**
   * A custom name that is never listed as verified does not become valid by the
   * merge, and one listed as verified does.
   */
  lemma MergeValidatesExactlyVerified(domains: set<string>, customs: seq<CustomDomain>, name: string)
    ensures (forall k :: 0 <= k < |customs| && customs[k].domain == Some(name) ==> customs[k].verified != Some(true))
            && !IsValidDomain(domains, name)
            ==> !IsValidDomain(MergeVerified(domains, customs), name)
    ensures (exists k :: 0 <= k < |customs| && customs[k] == CustomDomain(Some(name), Some(true)))
            ==> IsValidDomain(MergeVerified(domains, customs), name)
  {
    if exists k :: 0 <= k < |customs| && customs[k] == CustomDomain(Some(name), Some(true)) {
      var k :| 0 <= k < |customs| && customs[k] == CustomDomain(Some(name), Some(true));
      assert Accepted(customs[k]);
      assert name in AcceptedNames(customs);
    }
  }

  /** The suffix rules reject look-alike hosts and unrelated hosts; matching is case-sensitive. */
  lemma LookalikesRejected()
    ensures !IsValidDomain(BuiltIns, "fakedeeplinknow.com")
    ensures !IsValidDomain(BuiltIns, "invalid-domain.com")
    ensures !IsValidDomain(BuiltIns, "DeepLinkNow.com")
  {
    var fake := "fakedeeplinknow.com";
    assert fake[|fake| - 16] == 'e';
    assert fake[|fake| - 13] == 'e';
    var other := "invalid-domain.com";
    assert other[|other| - 16] == 'v';
    assert other[|other| - 13] == 'i';
    var upper := "DeepLinkNow.com";
    assert upper != PrimaryDomain && upper != ShortDomain;
    assert upper[|upper| - 13] == 'e';
  }

  lemma SubdomainsAccepted()
    ensures IsValidDomain(BuiltIns, "app.deeplinknow.com")
    ensures IsValidDomain(BuiltIns, "go.deeplink.now")
  {
    assert "app.deeplinknow.com"[3..] == "." + PrimaryDomain;
    assert "go.deeplink.now"[2..] == "." + ShortDomain;
  }
}
