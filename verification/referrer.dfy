/**
 * The install-referrer channel: id extraction from the raw referrer string,
 * the choice of lookup query, the persisted one-shot cache and the lazy
 * getters. The platform referrer service and the HTTP lookup are inputs.
 */
module Referrer {
  import opened Base
  import opened Text

  /** `DeeplinkMatch`; metadata values are kept as their JSON text. */
  datatype DeeplinkMatch = DeeplinkMatch(
    id: string,
    targetUrl: string,
    metadata: map<string, string>,
    campaignId: Option<string>,
    matchedAt: string,
    expiresAt: string)

  datatype LookupResponse = LookupResponse(success: bool, deeplink: Option<DeeplinkMatch>, message: Option<string>)

  datatype ReferrerData = ReferrerData(
    referrerString: string,
    fpId: Option<string>,
    deeplinkId: Option<string>,
    deeplinkData: Option<DeeplinkMatch>,
    processedAt: int)

  /**
   * A value in the `dln_referrer` preferences file. `UnreadableJson` is a
   * string the JSON decoder rejects.
   */
  datatype Pref = ReferrerJson(data: ReferrerData) | UnreadableJson | Millis(value: int)

  type Prefs = map<string, Pref>

  const ReferrerKey := "referrer_data"
  const ProcessedAtKey := "processed_at"
  const FpIdKey := "fp_id"
  const DeeplinkIdKey := "deeplink_id"

  // ---------------------------------------------------------------------------
  // parseReferrerString

  /** The pattern `<marker>([^&]+)` can match starting at position `i`. */
  predicate IdStartsAt(s: string, marker: string, i: int) {
    0 <= i && i + |marker| < |s| && s[i..i + |marker|] == marker && s[i + |marker|] != '&'
  }

  /** `i` is the leftmost position where the pattern matches. */
  predicate LeftmostIdStart(s: string, marker: string, i: int) {
    IdStartsAt(s, marker, i) && forall j :: 0 <= j < i ==> !IdStartsAt(s, marker, j)
  }

  function FirstIdStart(s: string, marker: string, from: nat): (r: Option<nat>)
    decreases |s| - from
    ensures r.Some? ==> from <= r.value && IdStartsAt(s, marker, r.value)
    ensures r.Some? ==> forall j :: from <= j < r.value ==> !IdStartsAt(s, marker, j)
    ensures r.None? ==> forall j :: from <= j ==> !IdStartsAt(s, marker, j)
  {
    if from + |marker| >= |s| then None
    else if IdStartsAt(s, marker, from) then Some(from)
    else FirstIdStart(s, marker, from + 1)
  }

  /** The greedy `[^&]+` group: the longest prefix without `&`. */
  function RunBeforeAmp(s: string): (r: string)
    decreases |s|
    ensures |r| <= |s| && r == s[..|r|]
    ensures '&' !in r
    ensures |r| == |s| || s[|r|] == '&'
  {
    if |s| == 0 || s[0] == '&' then ""
    else [s[0]] + RunBeforeAmp(s[1..])
  }

  /** `Regex("<key>=([^&]+)").find(s)?.groupValues?.get(1)`. */
  function ExtractId(s: string, key: string): (r: Option<string>)
    ensures r.None? <==> forall i :: !IdStartsAt(s, key + "=", i)
    ensures r.Some? ==> |r.value| > 0 && '&' !in r.value
    ensures r.Some? ==> exists i :: LeftmostIdStart(s, key + "=", i)
                                    && r.value == RunBeforeAmp(s[i + |key| + 1..])
  {
    var marker := key + "=";
    match FirstIdStart(s, marker, 0)
    case None => None
    case Some(i) =>
      var v := RunBeforeAmp(s[i + |marker|..]);
      assert LeftmostIdStart(s, marker, i);
      assert |v| > 0 by {
        assert s[i + |marker|..][0] == s[i + |marker|];
      }
      Some(v)
  }

  datatype ReferrerIds = ReferrerIds(fpId: Option<string>, deeplinkId: Option<string>)

  /** `parseReferrerString`: the two ids, extracted independently. */
  function ParseReferrerString(s: string): (ids: ReferrerIds)
    ensures ids.fpId == ExtractId(s, FpIdKey)
    ensures ids.deeplinkId == ExtractId(s, DeeplinkIdKey)
  {
    ReferrerIds(ExtractId(s, FpIdKey), ExtractId(s, DeeplinkIdKey))
  }

  // ---------------------------------------------------------------------------
  // lookupReferrerData

  /** The query string of the lookup request; `fp_id` wins when both ids are known. */
  function LookupQuery(ids: ReferrerIds): (q: Option<string>)
    ensures q.None? <==> ids.fpId.None? && ids.deeplinkId.None?
    ensures ids.fpId.Some? ==> q == Some(FpIdKey + "=" + ids.fpId.value)
    ensures ids.fpId.None? && ids.deeplinkId.Some? ==> q == Some(DeeplinkIdKey + "=" + ids.deeplinkId.value)
  {
    if ids.fpId.Some? then Some(FpIdKey + "=" + ids.fpId.value)
    else if ids.deeplinkId.Some? then Some(DeeplinkIdKey + "=" + ids.deeplinkId.value)
    else None
  }

  const LookupPath := "referrer-lookup?"

  /**
   * The deep link a lookup yields: only a decoded response with
   * `success == true` carries one; transport failures and undecodable bodies
   * (caught here) yield none.
   */
  function LookupResult(reply: Reply<LookupResponse>): (m: Option<DeeplinkMatch>)
    ensures m.Some? ==> reply.Decoded? && reply.value.success && reply.value.deeplink == m
    ensures reply.Decoded? && reply.value.success ==> m == reply.value.deeplink
  {
    match reply
    case Decoded(resp) => if resp.success then resp.deeplink else None
    case _ => None
  }

  lemma RunBeforeAmpWhole(s: string)
    requires '&' !in s
    ensures RunBeforeAmp(s) == s
  {
  }

  /**
   * The lookup query carries the extracted id unchanged: reading the id back
   * out of the query gives the id that was put in.
   */
  lemma LookupQueryCarriesId(ids: ReferrerIds)
    requires ids.fpId.Some? || ids.deeplinkId.Some?
    requires ids.fpId.Some? ==> |ids.fpId.value| > 0 && '&' !in ids.fpId.value
    requires ids.deeplinkId.Some? ==> |ids.deeplinkId.value| > 0 && '&' !in ids.deeplinkId.value
    ensures ids.fpId.Some? ==> ExtractId(LookupQuery(ids).value, FpIdKey) == ids.fpId
    ensures ids.fpId.None? ==> ExtractId(LookupQuery(ids).value, DeeplinkIdKey) == ids.deeplinkId
  {
    var key := if ids.fpId.Some? then FpIdKey else DeeplinkIdKey;
    var v := if ids.fpId.Some? then ids.fpId.value else ids.deeplinkId.value;
    var q := LookupQuery(ids).value;
    var marker := key + "=";
    assert q == marker + v;
    assert q[..|marker|] == marker;
    assert IdStartsAt(q, marker, 0);
    var r := ExtractId(q, key);
    var i :| LeftmostIdStart(q, marker, i) && r.value == RunBeforeAmp(q[i + |key| + 1..]);
    assert i == 0;
    assert q[|marker|..] == v;
    RunBeforeAmpWhole(v);
  }

  /** The ids the parser returns can always be sent back in a lookup query. */
  lemma ParsedIdsAreSendable(s: string)
    ensures var ids := ParseReferrerString(s);
            (ids.fpId.Some? ==> |ids.fpId.value| > 0 && '&' !in ids.fpId.value)
            && (ids.deeplinkId.Some? ==> |ids.deeplinkId.value| > 0 && '&' !in ids.deeplinkId.value)
  {
  }

  // ---------------------------------------------------------------------------
  // The persisted cache

  /**
   * `hasProcessedReferrer`: the presence of the `referrer_data` key, whatever
   * it holds; `processed_at` plays no part.
   */
  function HasProcessedReferrer(prefs: Prefs): (processed: bool)
    ensures processed <==> ReferrerKey in prefs.Keys
    ensures CachedReferrer(prefs).Some? ==> processed
  {
    ReferrerKey in prefs
  }

  /**
   * The processed mark is the `referrer_data` key alone: writing or removing
   * `processed_at` never changes it, and an unreadable entry still counts.
   */
  lemma ProcessedMarkIsReferrerKey(prefs: Prefs, t: int)
    ensures HasProcessedReferrer(prefs[ProcessedAtKey := Millis(t)]) == HasProcessedReferrer(prefs)
    ensures HasProcessedReferrer(prefs - {ProcessedAtKey}) == HasProcessedReferrer(prefs)
    ensures HasProcessedReferrer(prefs[ReferrerKey := UnreadableJson])
    ensures !HasProcessedReferrer(map[ProcessedAtKey := Millis(t)])
  {
    assert ProcessedAtKey != ReferrerKey by {
      assert ProcessedAtKey[0] != ReferrerKey[0];
    }
  }

  /** `getCachedReferrerData`: a decodable `referrer_data` entry, else nothing. */
  function CachedReferrer(prefs: Prefs): (r: Option<ReferrerData>)
    ensures r.Some? <==> ReferrerKey in prefs && prefs[ReferrerKey].ReferrerJson?
    ensures r.Some? ==> r.value == prefs[ReferrerKey].data
  {
    if ReferrerKey in prefs && prefs[ReferrerKey].ReferrerJson? then Some(prefs[ReferrerKey].data) else None
  }

  /** `cacheReferrerData`: writes the data and the processed-at marker, nothing else. */
  function CacheReferrer(prefs: Prefs, data: ReferrerData, markedAt: int): (r: Prefs)
    ensures CachedReferrer(r) == Some(data)
    ensures r.Keys == prefs.Keys + {ReferrerKey, ProcessedAtKey}
    ensures r[ProcessedAtKey] == Millis(markedAt)
    ensures forall k :: k in prefs && k != ReferrerKey && k != ProcessedAtKey ==> r[k] == prefs[k]
  {
    prefs[ReferrerKey := ReferrerJson(data)][ProcessedAtKey := Millis(markedAt)]
  }

  /** The persisted preferences together with the instance's `referrerData` field. */
  datatype Session = Session(prefs: Prefs, loaded: Option<ReferrerData>)

  /** What `processInstallReferrer` did: the new session, whether it asked the platform for the referrer, the lookup requests it sent. */
  datatype Processing = Processing(session: Session, fetchedReferrer: bool, lookups: seq<string>)

  /** The referrer string is usable: present and not empty. */
  predicate Usable(referrer: Option<string>) {
    referrer.Some? && referrer.value != ""
  }

  /** The condition under which `processInstallReferrer` performs its lookup. */
  predicate LooksUp(prefs: Prefs, referrer: Option<string>) {
    && !HasProcessedReferrer(prefs)
    && Usable(referrer)
    && LookupQuery(ParseReferrerString(referrer.value)).Some?
  }

  /**
   * `processInstallReferrer`. `referrer` is what the platform service returned
   * (`None` for unavailable), `reply` what the lookup request returned,
   * `processedAt` and `markedAt` the two clock readings it takes.
   */
  function ProcessInstallReferrer(
    session: Session, referrer: Option<string>, reply: Reply<LookupResponse>,
    processedAt: int, markedAt: int): (p: Processing)
    ensures HasProcessedReferrer(session.prefs) ==>
      p == Processing(Session(session.prefs, CachedReferrer(session.prefs)), false, [])
    ensures !HasProcessedReferrer(session.prefs) ==> p.fetchedReferrer
    ensures |p.lookups| <= 1
    ensures |p.lookups| == 1 <==> LooksUp(session.prefs, referrer)
    ensures !HasProcessedReferrer(session.prefs) && !LooksUp(session.prefs, referrer) ==> p.session == session
    ensures LooksUp(session.prefs, referrer) ==>
      var ids := ParseReferrerString(referrer.value);
      var data := ReferrerData(referrer.value, ids.fpId, ids.deeplinkId, LookupResult(reply), processedAt);
      && p.lookups == [LookupPath + LookupQuery(ids).value]
      && p.session.loaded == Some(data)
      && p.session.prefs == CacheReferrer(session.prefs, data, markedAt)
  {
    if HasProcessedReferrer(session.prefs) then
      Processing(Session(session.prefs, CachedReferrer(session.prefs)), false, [])
    else if !Usable(referrer) then
      Processing(session, true, [])
    else
      var ids := ParseReferrerString(referrer.value);
      match LookupQuery(ids)
      case None => Processing(session, true, [])
      case Some(query) =>
        var data := ReferrerData(referrer.value, ids.fpId, ids.deeplinkId, LookupResult(reply), processedAt);
        Processing(Session(CacheReferrer(session.prefs, data, markedAt), Some(data)), true, [LookupPath + query])
  }

  /**
   * At most once per install: whatever the inputs of two successive runs, the
   * two together send at most one lookup, and a run after one that looked up
   * sends none and finds the stored data.
   */
  lemma ProcessingIsAtMostOnce(
    session: Session,
    referrer1: Option<string>, reply1: Reply<LookupResponse>, t1: int, m1: int,
    referrer2: Option<string>, reply2: Reply<LookupResponse>, t2: int, m2: int)
    ensures var p1 := ProcessInstallReferrer(session, referrer1, reply1, t1, m1);
            var p2 := ProcessInstallReferrer(p1.session, referrer2, reply2, t2, m2);
            && |p1.lookups| + |p2.lookups| <= 1
            && (|p1.lookups| == 1 ==> !p2.fetchedReferrer && p2.session == p1.session)
  {
  }

  /** A failed lookup still marks the referrer processed, with no deep link stored. */
  lemma FailedLookupStillStored(prefs: Prefs, referrer: string, t: int, m: int)
    requires !HasProcessedReferrer(prefs) && LooksUp(prefs, Some(referrer))
    ensures var p := ProcessInstallReferrer(Session(prefs, None), Some(referrer), NoResponse, t, m);
            && HasProcessedReferrer(p.session.prefs)
            && CachedReferrer(p.session.prefs).Some?
            && CachedReferrer(p.session.prefs).value.deeplinkData.None?
  {
  }

  /**
   * A `referrer_data` entry that cannot be decoded still counts as processed:
   * no later run fetches or looks up again, and nothing is loaded.
   */
  lemma UnreadableEntryBlocksProcessing(prefs: Prefs, referrer: Option<string>, reply: Reply<LookupResponse>, t: int, m: int)
    requires ReferrerKey in prefs && prefs[ReferrerKey] == UnreadableJson
    ensures var p := ProcessInstallReferrer(Session(prefs, None), referrer, reply, t, m);
            p.lookups == [] && !p.fetchedReferrer && p.session.loaded.None?
  {
  }

  // ---------------------------------------------------------------------------
  // getReferrerData / getDeferredDeepLink

  /** The lazy load both getters start with: read the cache only when nothing is loaded. */
  function Load(session: Session): (s: Session)
    ensures s.prefs == session.prefs
    ensures session.loaded.Some? ==> s == session
    ensures session.loaded.None? ==> s.loaded == CachedReferrer(session.prefs)
  {
    if session.loaded.None? then Session(session.prefs, CachedReferrer(session.prefs)) else session
  }

  /** `getReferrerData`: the loaded data and the session with it loaded. */
  function GetReferrerData(session: Session): (r: (Session, Option<ReferrerData>))
    ensures r.0 == Load(session) && r.1 == r.0.loaded
  {
    var s := Load(session);
    (s, s.loaded)
  }

  /** `getDeferredDeepLink`: the deep link inside the loaded data, if any. */
  function GetDeferredDeepLink(session: Session): (r: (Session, Option<DeeplinkMatch>))
    ensures r.0 == Load(session)
    ensures r.1.Some? <==> r.0.loaded.Some? && r.0.loaded.value.deeplinkData.Some?
    ensures r.1.Some? ==> r.1 == r.0.loaded.value.deeplinkData
  {
    var s := Load(session);
    (s, if s.loaded.Some? then s.loaded.value.deeplinkData else None)
  }

  /** Reading twice gives the same answer and leaves the session as the first read left it. */
  lemma GettersAreStable(session: Session)
    ensures GetReferrerData(GetReferrerData(session).0) == GetReferrerData(session)
    ensures GetDeferredDeepLink(GetDeferredDeepLink(session).0) == GetDeferredDeepLink(session)
  {
  }

  /**
   * The getters are backed by the persisted store: after a run that looked up,
   * a session that has loaded nothing yet (a new instance) reads back exactly
   * the data that run stored, with the looked-up deep link.
   */
  lemma ProcessedDataReadBack(session: Session, referrer: Option<string>, reply: Reply<LookupResponse>, t: int, m: int)
    requires LooksUp(session.prefs, referrer)
    ensures var p := ProcessInstallReferrer(session, referrer, reply, t, m);
            var reread := Session(p.session.prefs, None);
            && GetReferrerData(reread).1 == p.session.loaded
            && GetDeferredDeepLink(reread).1 == LookupResult(reply)
  {
  }
}
