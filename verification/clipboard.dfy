/**
 * The clipboard probes `hasDeepLinkToken` and `checkClipboard`. The clipboard
 * read is an input: `None` covers an empty clipboard, a clip with no item, an
 * item with no text, and a read the platform refuses by throwing (all four give
 * the same result in the source).
 */
module Clipboard {
  import opened Base
  import opened Text
  import opened Domains

  const TokenScheme := "dln://"
  const SchemeSeparator := "://"

  /** `hasDeepLinkToken`: the clipboard text starts with `dln://`. */
  function HasDeepLinkToken(clip: Option<string>): (b: bool)
    ensures b <==> clip.Some? && |clip.value| >= 6 && clip.value[..6] == "dln://"
  {
    clip.Some? && StartsWith(clip.value, TokenScheme)
  }

  /** The token probe accepts exactly the texts that are `dln://` followed by anything. */
  lemma TokenIffSchemePrefix(text: string)
    ensures HasDeepLinkToken(Some(text)) <==> exists rest: string :: text == TokenScheme + rest
  {
    if HasDeepLinkToken(Some(text)) {
      assert text == TokenScheme + text[6..];
    }
    if exists rest: string :: text == TokenScheme + rest {
      var rest: string :| text == TokenScheme + rest;
      assert text[..6] == TokenScheme;
    }
  }

  /** `content.split("://").getOrNull(1)?.split("/")?.getOrNull(0)`. */
  function ClipboardHost(content: string): (host: Option<string>)
    ensures host.None? <==> IndexOf(content, SchemeSeparator, 0).None?
    ensures host.Some? ==>
      var rest := content[IndexOf(content, SchemeSeparator, 0).value + 3..];
      && StartsWith(rest, host.value)
      && '/' !in host.value
      && (forall k :: 0 <= k < |host.value| ==> !StartsWith(rest[k..], SchemeSeparator))
      && (|host.value| == |rest| || rest[|host.value|] == '/' || StartsWith(rest[|host.value|..], SchemeSeparator))
  {
    var pieces := Split(content, SchemeSeparator);
    if |pieces| < 2 then None
    else
      var host := Split(pieces[1], "/")[0];
      HostCharacterised(content, pieces, host);
      Some(host)
  }

  /** The first piece of a split is the text before the first delimiter. */
  lemma SplitHead(s: string, delim: string)
    requires |delim| > 0
    ensures IndexOf(s, delim, 0).None? ==> Split(s, delim) == [s]
    ensures IndexOf(s, delim, 0).Some? ==>
      var i := IndexOf(s, delim, 0).value;
      |Split(s, delim)| >= 2 && Split(s, delim)[0] == s[..i]
      && Split(s, delim)[1..] == Split(s[i + |delim|..], delim)
  {
  }

  lemma HostCharacterised(content: string, pieces: seq<string>, host: string)
    requires pieces == Split(content, SchemeSeparator) && |pieces| >= 2
    requires host == Split(pieces[1], "/")[0]
    ensures IndexOf(content, SchemeSeparator, 0).Some?
    ensures var rest := content[IndexOf(content, SchemeSeparator, 0).value + 3..];
      && StartsWith(rest, host)
      && '/' !in host
      && (forall k :: 0 <= k < |host| ==> !StartsWith(rest[k..], SchemeSeparator))
      && (|host| == |rest| || rest[|host|] == '/' || StartsWith(rest[|host|..], SchemeSeparator))
  {
    SecondPieceFollowsSeparator(content, pieces);
    var rest := content[IndexOf(content, SchemeSeparator, 0).value + 3..];
    SegmentBeforeSeparator(rest, pieces[1]);
    HostInSegment(pieces[1], host);
    HostWithinRest(rest, pieces[1], host);
  }

  /** The second piece of a split on `://` is the first piece of what follows the first `://`. */
  lemma SecondPieceFollowsSeparator(content: string, pieces: seq<string>)
    requires pieces == Split(content, SchemeSeparator) && |pieces| >= 2
    ensures IndexOf(content, SchemeSeparator, 0).Some?
    ensures pieces[1] == Split(content[IndexOf(content, SchemeSeparator, 0).value + 3..], SchemeSeparator)[0]
  {
    SplitHead(content, SchemeSeparator);
  }

  /** A `/`-bounded prefix of a `://`-bounded prefix of `rest` is bounded the same way in `rest`. */
  lemma HostWithinRest(rest: string, segment: string, host: string)
    requires StartsWith(rest, segment)
    requires |segment| == |rest| || StartsWith(rest[|segment|..], SchemeSeparator)
    requires forall k :: 0 <= k < |segment| ==> !OccursAt(rest, SchemeSeparator, k)
    requires StartsWith(segment, host) && '/' !in host
    requires |host| == |segment| || segment[|host|] == '/'
    ensures StartsWith(rest, host)
    ensures forall k :: 0 <= k < |host| ==> !StartsWith(rest[k..], SchemeSeparator)
    ensures |host| == |rest| || rest[|host|] == '/' || StartsWith(rest[|host|..], SchemeSeparator)
  {
    assert rest[..|host|] == segment[..|host|];
    if |host| < |segment| {
      assert rest[|host|] == segment[|host|];
    }
    forall k | 0 <= k < |host|
      ensures !StartsWith(rest[k..], SchemeSeparator)
    {
      StartsWithIsOccurs(rest, SchemeSeparator, k);
    }
  }

  /** The first piece of a split on `://` is `rest` up to its first `://`, or all of it. */
  lemma SegmentBeforeSeparator(rest: string, segment: string)
    requires segment == Split(rest, SchemeSeparator)[0]
    ensures StartsWith(rest, segment)
    ensures |segment| == |rest| || StartsWith(rest[|segment|..], SchemeSeparator)
    ensures forall k :: 0 <= k < |segment| ==> !OccursAt(rest, SchemeSeparator, k)
  {
    SplitHead(rest, SchemeSeparator);
    match IndexOf(rest, SchemeSeparator, 0) {
      case None =>
      case Some(k) => StartsWithIsOccurs(rest, SchemeSeparator, k);
    }
  }

  /** The first piece of a split on `/` is a `/`-free prefix ending at the first `/`. */
  lemma HostInSegment(segment: string, host: string)
    requires host == Split(segment, "/")[0]
    ensures StartsWith(segment, host)
    ensures '/' !in host
    ensures |host| == |segment| || segment[|host|] == '/'
  {
    SplitHead(segment, "/");
    CharFreeIffAbsent(host, '/');
    match IndexOf(segment, "/", 0) {
      case None =>
      case Some(j) =>
        assert segment[j..j + 1] == "/";
    }
  }

  lemma StartsWithIsOccurs(s: string, pat: string, k: int)
    requires 0 <= k <= |s|
    ensures StartsWith(s[k..], pat) <==> OccursAt(s, pat, k)
  {
    if k + |pat| <= |s| {
      assert s[k..][..|pat|] == s[k..k + |pat|];
    }
  }

  /**
   * `checkClipboard`: the clipboard text, returned only when the SDK is
   * initialised and the text's host passes the domain check.
   */
  function CheckClipboard(initialized: bool, domains: set<string>, clip: Option<string>): (r: Option<string>)
    ensures r.Some? <==>
      && initialized && clip.Some?
      && ClipboardHost(clip.value).Some?
      && IsValidDomain(domains, ClipboardHost(clip.value).value)
    ensures r.Some? ==> r == clip
  {
    if !initialized then None
    else match clip
      case None => None
      case Some(content) =>
        match ClipboardHost(content)
        case Some(host) => if IsValidDomain(domains, host) then clip else None
        case None => None
  }

  /**
   * For a text `<scheme>://<host><tail>` whose scheme and host hold no `:` or
   * `/`, and whose tail is empty, a path, or another `://`, the host is found.
   */
  lemma HostAfterScheme(scheme: string, host: string, tail: string)
    requires ':' !in scheme && ':' !in host && '/' !in host
    requires tail == "" || tail[0] == '/' || StartsWith(tail, SchemeSeparator)
    ensures ClipboardHost(scheme + SchemeSeparator + host + tail) == Some(host)
  {
    var content := scheme + SchemeSeparator + host + tail;
    SeparatorAfterScheme(scheme, host + tail);
    assert content == scheme + SchemeSeparator + (host + tail);
    var rest := content[|scheme| + 3..];
    assert rest == host + tail;
    HostUnique(host, tail, ClipboardHost(content).value);
  }

  lemma SeparatorAfterScheme(scheme: string, rest: string)
    requires ':' !in scheme
    ensures IndexOf(scheme + SchemeSeparator + rest, SchemeSeparator, 0) == Some(|scheme|)
  {
    var content := scheme + SchemeSeparator + rest;
    assert OccursAt(content, SchemeSeparator, |scheme|) by {
      assert content[|scheme|..|scheme| + 3] == SchemeSeparator;
    }
    forall j | 0 <= j < |scheme|
      ensures !OccursAt(content, SchemeSeparator, j)
    {
      assert content[j] == scheme[j];
    }
  }

  lemma NextAfterHostStops(host: string, tail: string, found: string)
    requires tail == "" || tail[0] == '/' || StartsWith(tail, SchemeSeparator)
    requires StartsWith(host + tail, found) && |found| > |host|
    ensures found[|host|] == '/' || StartsWith((host + tail)[|host|..], SchemeSeparator)
  {
    assert (host + tail)[|host|..] == tail;
    assert found[|host|] == (host + tail)[|host|];
  }

  /** Only one prefix of `host + tail` meets the characterisation of the host. */
  lemma HostUnique(host: string, tail: string, found: string)
    requires ':' !in host && '/' !in host
    requires tail == "" || tail[0] == '/' || StartsWith(tail, SchemeSeparator)
    requires var rest := host + tail;
      && StartsWith(rest, found)
      && '/' !in found
      && (forall k :: 0 <= k < |found| ==> !StartsWith(rest[k..], SchemeSeparator))
      && (|found| == |rest| || rest[|found|] == '/' || StartsWith(rest[|found|..], SchemeSeparator))
    ensures found == host
  {
    var rest := host + tail;
    if |found| < |host| {
      assert false;
    } else if |found| > |host| {
      NextAfterHostStops(host, tail, found);
      assert false;
    }
    assert found == rest[..|found|];
    assert rest[..|host|] == host;
  }

  /** The instrumented test's link to the primary domain is returned from an initialised SDK. */
  lemma PrimaryLinkReturned(domains: set<string>)
    requires domains == BuiltIns
    ensures CheckClipboard(true, domains, Some("https" + SchemeSeparator + PrimaryDomain + "/path")).Some?
  {
    HostAfterScheme("https", PrimaryDomain, "/path");
  }

  /** The instrumented test's link to another domain is withheld, and so is an empty clipboard. */
  lemma ForeignLinkWithheld(domains: set<string>)
    requires domains == BuiltIns
    ensures CheckClipboard(true, domains, Some("https" + SchemeSeparator + "invalid-domain.com")).None?
    ensures CheckClipboard(true, domains, None).None?
  {
    HostAfterScheme("https", "invalid-domain.com", "");
    assert "https" + SchemeSeparator + "invalid-domain.com" + "" == "https" + SchemeSeparator + "invalid-domain.com";
    LookalikesRejected();
  }

  /** A `dln://` text passes the token probe; an `https://` link and an empty clipboard do not. */
  lemma TokenProbeCases(path: string, rest: string)
    ensures HasDeepLinkToken(Some(TokenScheme + path))
    ensures !HasDeepLinkToken(Some("https" + SchemeSeparator + rest))
    ensures !HasDeepLinkToken(None)
  {
    var token := TokenScheme + path;
    assert token[..6] == TokenScheme;
    var other := "https" + SchemeSeparator + rest;
    assert other[0] == 'h';
  }
}
