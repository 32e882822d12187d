/**
 * `parseDeepLink` and `handleDeepLinkInternal`. A URL arrives already split
 * into the components of RFC 3986 section 3: host (section 3.2.2), path
 * (section 3.3) and the query (section 3.4) as its decoded name/value pairs
 * in order. A string with no authority, such as `not-a-url`, has no host.
 * A URI whose scheme is not followed by `/`, such as `mailto:x`, is opaque:
 * it has neither host nor path, and asking it for its query names throws.
 */
module DeepLinks {
  import opened Base
  import opened Text
  import opened Domains

  datatype Url =
    | Url(host: Option<string>, path: Option<string>, query: seq<(string, string)>)
    | Opaque

  /** The identity of a `DeepLinkCallback` object registered by the host application. */
  datatype Callback = Callback(id: nat)

  /** `DeepLinkData`: the route and the query map handed to the callback. */
  datatype DeepLinkData = DeepLinkData(route: string, params: map<string, string>)

  /** The pair `parseDeepLink` returns. */
  datatype Parsed = Parsed(path: string, params: map<string, string>)

  /** What one call of `handleDeepLinkInternal` did: its result and the callback invocations it made. */
  datatype Dispatch = Dispatch(handled: bool, invocations: seq<(Callback, DeepLinkData)>)

  /** The host a URL is checked with: `uri.host ?: ""`. */
  function HostOf(url: Url): string {
    match url
    case Url(host, _, _) => host.GetOr("")
    case Opaque => ""
  }

  /** Position `i` holds the first pair with its name. */
  predicate FirstWithName(query: seq<(string, string)>, i: int)
    requires 0 <= i < |query|
  {
    forall j :: 0 <= j < i ==> query[j].0 != query[i].0
  }

  /**
   * The map built from `queryParameterNames` and `getQueryParameter`: one
   * entry per distinct name, holding the FIRST value given for it
   * (`getQueryParameter` returns the first value with the given name).
   */
  function QueryParams(query: seq<(string, string)>): (m: map<string, string>)
    decreases |query|
    ensures m.Keys == set i | 0 <= i < |query| :: query[i].0
    ensures forall i :: 0 <= i < |query| && FirstWithName(query, i) ==> m[query[i].0] == query[i].1
  {
    if |query| == 0 then map[]
    else
      var rest := QueryParams(query[1..]);
      var m := rest[query[0].0 := query[0].1];
      forall i | 0 <= i < |query| && FirstWithName(query, i)
        ensures m[query[i].0] == query[i].1
      {
        if i > 0 {
          assert query[1..][i - 1] == query[i];
          assert FirstWithName(query[1..], i - 1) by {
            forall j | 0 <= j < i - 1
              ensures query[1..][j].0 != query[1..][i - 1].0
            {
              assert query[1..][j] == query[j + 1];
            }
          }
        }
      }
      assert m.Keys == set i | 0 <= i < |query| :: query[i].0 by {
        forall name | name in rest.Keys
          ensures name in set i | 0 <= i < |query| :: query[i].0
        {
          var i :| 0 <= i < |query[1..]| && query[1..][i].0 == name;
          assert query[i + 1] == query[1..][i];
        }
        forall name | name in set i | 0 <= i < |query| :: query[i].0
          ensures name in m.Keys
        {
          var i :| 0 <= i < |query| && query[i].0 == name;
          if i > 0 {
            assert query[1..][i - 1] == query[i];
          }
        }
      }
      m
  }

  /**
   * `parseDeepLink`: `None` unless the host is valid; the raw path and the
   * query map otherwise. An opaque URI whose empty host passes the check
   * throws on `queryParameterNames`, which the catch turns into `None`.
   */
  function ParseDeepLink(domains: set<string>, url: Url): (r: Option<Parsed>)
    ensures r.None? <==> url.Opaque? || !IsValidDomain(domains, HostOf(url))
    ensures r.Some? ==> r.value.path == url.path.GetOr("") && r.value.params == QueryParams(url.query)
  {
    if !IsValidDomain(domains, HostOf(url)) then None
    else
      match url
      case Opaque => None
      case Url(_, path, query) => Some(Parsed(path.GetOr(""), QueryParams(query)))
  }

  /** The route of a deep link: the path with at most one leading `/` removed. */
  function Route(path: Option<string>): (route: string)
    ensures path.None? ==> route == ""
    ensures path.Some? && StartsWith(path.value, "/") ==> "/" + route == path.value
    ensures path.Some? && !StartsWith(path.value, "/") ==> route == path.value
  {
    match path
    case None => ""
    case Some(p) => RemovePrefix(p, "/")
  }

  /**
   * `handleDeepLinkInternal`: `true` exactly when the host is valid, and then
   * one invocation of the registered callback, if any. An exception thrown by
   * the callback is caught and leaves the result `true`, so its outcome is not
   * an input here. An opaque URI throws on `queryParameterNames` before the
   * callback is reached, and the outer catch returns `false`.
   */
  function HandleDeepLink(domains: set<string>, callback: Option<Callback>, url: Url): (d: Dispatch)
    ensures d.handled <==> url.Url? && IsValidDomain(domains, HostOf(url))
    ensures |d.invocations| == (if d.handled && callback.Some? then 1 else 0)
    ensures |d.invocations| == 1 ==>
      d.invocations[0] == (callback.value, DeepLinkData(Route(url.path), QueryParams(url.query)))
  {
    if !IsValidDomain(domains, HostOf(url)) || url.Opaque? then Dispatch(false, [])
    else
      var data := DeepLinkData(Route(url.path), QueryParams(url.query));
      match callback
      case None => Dispatch(true, [])
      case Some(cb) => Dispatch(true, [(cb, data)])
  }

  /**
   * Handling agrees with parsing: a link is handled exactly when it parses, the
   * callback receives the parsed query map, and the route is the parsed path
   * with one leading `/` removed.
   */
  lemma HandleAgreesWithParse(domains: set<string>, cb: Callback, url: Url)
    ensures var d := HandleDeepLink(domains, Some(cb), url);
            var p := ParseDeepLink(domains, url);
            && (d.handled <==> p.Some?)
            && (p.Some? ==>
                  |d.invocations| == 1
                  && d.invocations[0].0 == cb
                  && d.invocations[0].1.params == p.value.params
                  && (p.value.path == d.invocations[0].1.route
                      || p.value.path == "/" + d.invocations[0].1.route))
  {
  }

  /** Two distinct names give both values; a repeated name keeps its first value. */
  lemma QueryParamsCases(a: string, b: string, x: string, y: string)
    ensures a != b ==> QueryParams([(a, x), (b, y)]) == map[a := x, b := y]
    ensures QueryParams([(a, x), (a, y)]) == map[a := x]
  {
    assert [(a, x), (b, y)][1..] == [(b, y)];
    assert [(a, x), (a, y)][1..] == [(a, y)];
    assert [(b, y)][1..] == [];
    assert [(a, y)][1..] == [];
  }

  /**
   * A link on the primary domain parses to its raw path and one entry per query
   * name; a string with no host, such as `not-a-url` (whose path is the whole
   * string), is rejected whatever its path and query whenever the empty name is
   * not a registered domain.
   */
  lemma ParseCases(
    domains: set<string>, path: string, a: string, b: string, x: string, y: string, cb: Callback,
    p: Option<string>, q: seq<(string, string)>)
    requires a != b && "" !in domains
    ensures ParseDeepLink(domains, Url(Some(PrimaryDomain), Some(path), [(a, x), (b, y)]))
              == Some(Parsed(path, map[a := x, b := y]))
    ensures ParseDeepLink(domains, Url(None, p, q)).None?
    ensures !HandleDeepLink(domains, Some(cb), Url(None, p, q)).handled
  {
    QueryParamsCases(a, b, x, y);
    assert !Under("", PrimaryDomain) && !Under("", ShortDomain);
  }

  /**
   * An opaque URI is never accepted, even when the server has registered the
   * empty name as a verified domain: the exception from `queryParameterNames`
   * is caught by both entry points.
   */
  lemma OpaqueRejected(domains: set<string>, callback: Option<Callback>)
    ensures ParseDeepLink(domains + {""}, Opaque).None?
    ensures HandleDeepLink(domains + {""}, callback, Opaque) == Dispatch(false, [])
    ensures IsValidDomain(domains + {""}, HostOf(Opaque))
  {
  }

  /**
   * The other side of the rejection in `ParseCases`: once the server has
   * registered the empty name as a verified domain, a hierarchical link with
   * no host passes both entry points, whatever its path and query.
   */
  lemma EmptyNameAcceptsHostless(domains: set<string>, cb: Callback, p: Option<string>, q: seq<(string, string)>)
    ensures ParseDeepLink(domains + {""}, Url(None, p, q)) == Some(Parsed(p.GetOr(""), QueryParams(q)))
    ensures HandleDeepLink(domains + {""}, Some(cb), Url(None, p, q)).handled
  {
  }
}
