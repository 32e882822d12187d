/**
 * The SDK lifecycle: the companion object's instance slot and pending-callback
 * slot, `init` split into its two steps (constructing the instance, then the
 * `initializeSDK` run the launched coroutine performs), and the companion
 * entry points. The weak reference being cleared by the collector is the
 * explicit event `Reclaim`; coroutine scheduling becomes the order of events.
 */
module Sdk {
  import opened Base
  import opened Domains
  import opened DeepLinks
  import opened Referrer
  import opened Fingerprints
  import Clipboard

  /** One `DLN` object: its fields that the modelled operations read or write. */
  datatype Instance = Instance(
    config: Config,
    installedAt: string,
    domains: set<string>,
    initResponse: Option<InitResponse>,
    referrer: Option<ReferrerData>,
    callback: Option<Callback>)

  /**
   * The process-wide state: the companion's instance slot (`None` when never
   * set or when the weak reference no longer yields the object), its pending
   * callback slot, and the persisted `dln_referrer` preferences, which outlive
   * every instance.
   */
  datatype Sdk = Sdk(instance: Option<Instance>, pending: Option<Callback>, prefs: Prefs)

  /** The exception `getInstance` throws. */
  datatype SdkError = NotInitialized

  /** A new process: no instance, no pending callback, whatever the store already holds. */
  function Start(prefs: Prefs): (st: Sdk)
    ensures st.instance.None? && st.pending.None? && st.prefs == prefs
  {
    Sdk(None, None, prefs)
  }

  /** The `DLN` constructor: the two built-in domains and every optional field empty. */
  function NewInstance(config: Config, installedAt: string): (inst: Instance)
    ensures inst.domains == BuiltIns
    ensures inst.initResponse.None? && inst.referrer.None? && inst.callback.None?
    ensures inst.config == config && inst.installedAt == installedAt
  {
    Instance(config, installedAt, BuiltIns, None, None, None)
  }

  /**
   * The first step of `init`: a new instance replaces whatever the slot held;
   * the pending callback and the store are untouched.
   */
  function Init(st: Sdk, config: Config, installedAt: string): (r: Sdk)
    ensures r.instance == Some(NewInstance(config, installedAt))
    ensures r.pending == st.pending && r.prefs == st.prefs
  {
    Sdk(Some(NewInstance(config, installedAt)), st.pending, st.prefs)
  }

  /** `getInstance`: the live instance, or the `IllegalStateException`. */
  function GetInstance(st: Sdk): (r: Result<Instance, SdkError>)
    ensures r.Ok? <==> st.instance.Some?
    ensures r.Ok? ==> r.value == st.instance.value
  {
    match st.instance
    case None => Err(NotInitialized)
    case Some(inst) => Ok(inst)
  }

  /** `isInitialized`: the weak reference still yields an instance. */
  function IsInitialized(st: Sdk): (b: bool)
    ensures b <==> st.instance.Some?
    ensures b <==> GetInstance(st).Ok?
  {
    GetInstance(st).Ok?
  }

  /** How a run of `initializeSDK` ended. */
  datatype InitOutcome =
    | Completed
    | Threw      // the init response body could not be decoded; the exception escapes
    | NoInstance // the coroutine found the weak reference empty

  datatype InitRun = InitRun(state: Sdk, outcome: InitOutcome, lookups: seq<string>)

  /**
   * `initializeSDK` on the live instance. `initReply` is the outcome of the
   * `init` request and its decoding, `referrer` what the platform referrer
   * service returned, `lookupReply` the outcome of the lookup request, and
   * `processedAt`/`markedAt` the clock readings of the referrer processing.
   * A decoded response is stored and its verified custom domains merged; the
   * install referrer is processed; the pending callback, if any, is installed
   * and its slot cleared.
   */
  function InitializeSDK(
    st: Sdk, initReply: Reply<InitResponse>, referrer: Option<string>,
    lookupReply: Reply<LookupResponse>, processedAt: int, markedAt: int): (run: InitRun)
    ensures run.outcome == NoInstance <==> st.instance.None?
    ensures run.outcome == Threw <==> st.instance.Some? && initReply.Malformed?
    ensures run.outcome != Completed ==> run.state == st && run.lookups == []
    ensures run.outcome == Completed ==>
      var inst := st.instance.value;
      var response := if initReply.Decoded? then Some(initReply.value) else None;
      var p := ProcessInstallReferrer(Session(st.prefs, inst.referrer), referrer, lookupReply, processedAt, markedAt);
      && run.state.instance.Some?
      && run.state.instance.value.config == inst.config
      && run.state.instance.value.installedAt == inst.installedAt
      && run.state.instance.value.domains == ApplyInitResponse(inst.domains, response)
      && run.state.instance.value.initResponse == (if response.Some? then response else inst.initResponse)
      && run.state.instance.value.referrer == p.session.loaded
      && run.state.prefs == p.session.prefs
      && run.lookups == p.lookups
      && run.state.pending.None?
      && run.state.instance.value.callback == (if st.pending.Some? then st.pending else inst.callback)
  {
    match st.instance
    case None => InitRun(st, NoInstance, [])
    case Some(inst) =>
      if initReply.Malformed? then InitRun(st, Threw, [])
      else
        var response := if initReply.Decoded? then Some(initReply.value) else None;
        var withResponse := inst.(
          domains := ApplyInitResponse(inst.domains, response),
          initResponse := if response.Some? then response else inst.initResponse);
        var p := ProcessInstallReferrer(Session(st.prefs, inst.referrer), referrer, lookupReply, processedAt, markedAt);
        var processed := withResponse.(referrer := p.session.loaded);
        var (flushed, pending) := RegisterPendingCallback(processed, st.pending);
        InitRun(Sdk(Some(flushed), pending, p.session.prefs), Completed, p.lookups)
  }

  /** `registerPendingCallback`: a pending callback moves into the instance and leaves the slot. */
  function RegisterPendingCallback(inst: Instance, pending: Option<Callback>): (r: (Instance, Option<Callback>))
    ensures r.1.None?
    ensures pending.Some? ==> r.0 == inst.(callback := pending)
    ensures pending.None? ==> r.0 == inst
  {
    match pending
    case None => (inst, None)
    case Some(cb) => (inst.(callback := Some(cb)), None)
  }

  /**
   * `setDeepLinkCallback`: set on the live instance, or, when there is none,
   * written to the single pending slot (`null` included).
   */
  function SetDeepLinkCallback(st: Sdk, callback: Option<Callback>): (r: Sdk)
    ensures r.prefs == st.prefs
    ensures r.instance.Some? <==> st.instance.Some?
    ensures st.instance.Some? ==> r.instance.value == st.instance.value.(callback := callback) && r.pending == st.pending
    ensures st.instance.None? ==> r.pending == callback
  {
    match st.instance
    case Some(inst) => st.(instance := Some(inst.(callback := callback)))
    case None => st.(pending := callback)
  }

  /** The companion `handleDeepLink`: `false`, and nothing queued, without a live instance. */
  function HandleDeepLink(st: Sdk, url: Url): (d: Dispatch)
    ensures st.instance.None? ==> !d.handled && d.invocations == []
    ensures st.instance.Some? ==> d == DeepLinks.HandleDeepLink(st.instance.value.domains, st.instance.value.callback, url)
  {
    match st.instance
    case None => Dispatch(false, [])
    case Some(inst) => DeepLinks.HandleDeepLink(inst.domains, inst.callback, url)
  }

  /**
   * `getInstance().checkClipboard()`: `getInstance` throws before the method's
   * own initialisation gate can be reached, so that gate always passes here.
   */
  function CheckClipboard(st: Sdk, clip: Option<string>): (r: Result<Option<string>, SdkError>)
    ensures r.Err? <==> st.instance.None?
    ensures r.Ok? ==>
      (r.value.Some? <==>
        && clip.Some?
        && Clipboard.ClipboardHost(clip.value).Some?
        && IsValidDomain(st.instance.value.domains, Clipboard.ClipboardHost(clip.value).value))
    ensures r.Ok? && r.value.Some? ==> r.value == clip
  {
    match GetInstance(st)
    case Err(e) => Err(e)
    case Ok(inst) => Ok(Clipboard.CheckClipboard(IsInitialized(st), inst.domains, clip))
  }

  /** `getInstance().hasDeepLinkToken()`: the probe itself needs no initialisation, but the call path does. */
  function HasDeepLinkToken(st: Sdk, clip: Option<string>): (r: Result<bool, SdkError>)
    ensures r.Err? <==> st.instance.None?
    ensures r.Ok? ==> (r.value <==> clip.Some? && |clip.value| >= 6 && clip.value[..6] == Clipboard.TokenScheme)
  {
    match GetInstance(st)
    case Err(e) => Err(e)
    case Ok(_) => Ok(Clipboard.HasDeepLinkToken(clip))
  }

  /** `getInstance().getReferrerData()`: the lazy load is remembered by the live instance. */
  function ReadReferrer(st: Sdk): (r: Result<(Sdk, Option<ReferrerData>), SdkError>)
    ensures r.Err? <==> st.instance.None?
    ensures r.Ok? ==>
      var (next, data) := r.value;
      && next.prefs == st.prefs && next.pending == st.pending
      && next.instance.Some?
      && data == (if st.instance.value.referrer.Some? then st.instance.value.referrer else CachedReferrer(st.prefs))
      && next.instance.value == st.instance.value.(referrer := data)
  {
    match GetInstance(st)
    case Err(e) => Err(e)
    case Ok(inst) =>
      var (session, data) := GetReferrerData(Session(st.prefs, inst.referrer));
      Ok((st.(instance := Some(inst.(referrer := session.loaded))), data))
  }

  /** `getInstance().getDeferredDeepLink()`: the same lazy load, answering with the deep link inside the data. */
  function ReadDeferredDeepLink(st: Sdk): (r: Result<(Sdk, Option<DeeplinkMatch>), SdkError>)
    ensures r.Err? <==> st.instance.None?
    ensures r.Ok? ==>
      var loaded := if st.instance.value.referrer.Some? then st.instance.value.referrer else CachedReferrer(st.prefs);
      && r.value.0 == st.(instance := Some(st.instance.value.(referrer := loaded)))
      && (r.value.1.Some? <==> loaded.Some? && loaded.value.deeplinkData.Some?)
      && (r.value.1.Some? ==> r.value.1 == loaded.value.deeplinkData)
  {
    match GetInstance(st)
    case Err(e) => Err(e)
    case Ok(inst) =>
      var (session, link) := GetDeferredDeepLink(Session(st.prefs, inst.referrer));
      Ok((st.(instance := Some(inst.(referrer := session.loaded))), link))
  }

  // ---------------------------------------------------------------------------
  // Traces

  datatype Event =
    | InitCall(config: Config, installedAt: string)
    | Initialize(
        initReply: Reply<InitResponse>, referrer: Option<string>,
        lookupReply: Reply<LookupResponse>, processedAt: int, markedAt: int)
    | SetCallback(callback: Option<Callback>)
    | Handle(url: Url)
    | ReadReferrerData
    | Reclaim

  /** One event's effect: the next state, the lookup requests sent and the callback invocations made. */
  datatype Outcome = Outcome(state: Sdk, lookups: seq<string>, invocations: seq<(Callback, DeepLinkData)>)

  function Step(st: Sdk, e: Event): (o: Outcome)
    ensures |o.lookups| <= 1
    ensures |o.invocations| <= 1
    ensures |o.lookups| == 1 ==> e.Initialize? && !HasProcessedReferrer(st.prefs) && HasProcessedReferrer(o.state.prefs)
    ensures HasProcessedReferrer(st.prefs) ==> HasProcessedReferrer(o.state.prefs)
    ensures |o.invocations| == 1 ==> e.Handle? && st.instance.Some? && st.instance.value.callback.Some?
  {
    match e
    case InitCall(config, installedAt) => Outcome(Init(st, config, installedAt), [], [])
    case Initialize(initReply, referrer, lookupReply, processedAt, markedAt) =>
      var run := InitializeSDK(st, initReply, referrer, lookupReply, processedAt, markedAt);
      Outcome(run.state, run.lookups, [])
    case SetCallback(callback) => Outcome(SetDeepLinkCallback(st, callback), [], [])
    case Handle(url) => Outcome(st, [], HandleDeepLink(st, url).invocations)
    case ReadReferrerData =>
      var next := match ReadReferrer(st) case Ok((next, _)) => next case Err(_) => st;
      Outcome(next, [], [])
    case Reclaim => Outcome(st.(instance := None), [], [])
  }

  /** A trace of events from `st`: the final state and everything sent and invoked on the way. */
  function Run(st: Sdk, trace: seq<Event>): (o: Outcome)
    decreases |trace|
  {
    if |trace| == 0 then Outcome(st, [], [])
    else
      var first := Step(st, trace[0]);
      var rest := Run(first.state, trace[1..]);
      Outcome(rest.state, first.lookups + rest.lookups, first.invocations + rest.invocations)
  }

  // ---------------------------------------------------------------------------
  // Properties

  /** Every live instance keeps both built-in domains. */
  predicate BuiltInsKept(st: Sdk) {
    st.instance.Some? ==> BuiltIns <= st.instance.value.domains
  }

  lemma StepKeepsBuiltIns(st: Sdk, e: Event)
    requires BuiltInsKept(st)
    ensures BuiltInsKept(Step(st, e).state)
  {
  }

  lemma {:induction false} RunKeepsBuiltIns(st: Sdk, trace: seq<Event>)
    requires BuiltInsKept(st)
    ensures BuiltInsKept(Run(st, trace).state)
    decreases |trace|
  {
    if |trace| > 0 {
      StepKeepsBuiltIns(st, trace[0]);
      RunKeepsBuiltIns(Step(st, trace[0]).state, trace[1..]);
    }
  }

  /**
   * Whatever the events and whatever the platform and server return, at most
   * one referrer lookup is ever sent from a store, and none from a store that
   * already holds `referrer_data`; afterwards the mark stays. Each
   * `Initialize` event is a whole `initializeSDK` run, so this holds for runs
   * that do not overlap; two runs suspended at the same time can both find the
   * store unprocessed and each send a lookup.
   */
  lemma {:induction false} AtMostOneLookup(st: Sdk, trace: seq<Event>)
    ensures |Run(st, trace).lookups| <= (if HasProcessedReferrer(st.prefs) then 0 else 1)
    ensures HasProcessedReferrer(st.prefs) ==> HasProcessedReferrer(Run(st, trace).state.prefs)
    ensures |Run(st, trace).lookups| == 1 ==> HasProcessedReferrer(Run(st, trace).state.prefs)
    decreases |trace|
  {
    if |trace| > 0 {
      AtMostOneLookup(Step(st, trace[0]).state, trace[1..]);
    }
  }

  /**
   * A new process on a store that has never been processed sends at most one
   * lookup over any trace, and one on a processed store sends none.
   */
  lemma FreshProcessLookups(prefs: Prefs, trace: seq<Event>)
    ensures var o := Run(Start(prefs), trace);
            && |o.lookups| <= 1
            && (HasProcessedReferrer(prefs) ==> o.lookups == [])
  {
    AtMostOneLookup(Start(prefs), trace);
  }

  /** A domain valid on the live instance stays valid through any event but `init` and `Reclaim`. */
  lemma ValidityIsMonotone(st: Sdk, e: Event, host: string)
    requires st.instance.Some? && IsValidDomain(st.instance.value.domains, host)
    requires !e.InitCall? && !e.Reclaim?
    ensures Step(st, e).state.instance.Some?
    ensures IsValidDomain(Step(st, e).state.instance.value.domains, host)
  {
  }

  /** Without an instance the pending slot holds the last callback set: earlier ones are lost. */
  lemma PendingLastWriteWins(st: Sdk, a: Option<Callback>, b: Option<Callback>)
    requires st.instance.None?
    ensures SetDeepLinkCallback(SetDeepLinkCallback(st, a), b) == SetDeepLinkCallback(st, b)
    ensures SetDeepLinkCallback(SetDeepLinkCallback(st, a), b).pending == b
  {
  }

  /**
   * A callback set before `init` is installed by `initializeSDK` and
   * overwrites one set directly on the instance in between.
   */
  lemma PendingOverwritesDirect(
    st: Sdk, early: Callback, late: Callback, config: Config, installedAt: string,
    initReply: Reply<InitResponse>, referrer: Option<string>, lookupReply: Reply<LookupResponse>, t: int, m: int)
    requires st.instance.None?
    requires !initReply.Malformed?
    ensures var s1 := SetDeepLinkCallback(st, Some(early));
            var s2 := Init(s1, config, installedAt);
            var s3 := SetDeepLinkCallback(s2, Some(late));
            var run := InitializeSDK(s3, initReply, referrer, lookupReply, t, m);
            && s3.instance.value.callback == Some(late)
            && run.outcome == Completed
            && run.state.instance.value.callback == Some(early)
            && run.state.pending.None?
  {
  }

  /** A failed decoding of the init response leaves the pending callback waiting and nothing processed. */
  lemma MalformedInitSkipsFlush(st: Sdk, referrer: Option<string>, lookupReply: Reply<LookupResponse>, t: int, m: int)
    requires st.instance.Some? && st.pending.Some?
    ensures var run := InitializeSDK(st, Malformed, referrer, lookupReply, t, m);
            run.state.pending == st.pending && run.state.instance.value.callback == st.instance.value.callback
            && run.lookups == []
  {
  }

  /**
   * `handleDeepLink` before `init` returns `false` and nothing is queued:
   * whatever events follow, they behave as if the early call never happened.
   */
  lemma EarlyLinkIsDropped(st: Sdk, url: Url, trace: seq<Event>)
    requires st.instance.None?
    ensures Step(st, Handle(url)) == Outcome(st, [], [])
    ensures Run(st, [Handle(url)] + trace) == Run(st, trace)
  {
    var full := [Handle(url)] + trace;
    assert full[0] == Handle(url) && full[1..] == trace;
    var rest := Run(st, trace);
    assert [] + rest.lookups == rest.lookups && [] + rest.invocations == rest.invocations;
  }

  /** Right after `init`, before `initializeSDK` has run, links to the built-in domains are handled. */
  lemma BuiltInHostHandledAfterInit(st: Sdk, config: Config, installedAt: string, url: Url)
    requires url.Url? && url.host.Some? && (Under(url.host.value, PrimaryDomain) || Under(url.host.value, ShortDomain))
    ensures HandleDeepLink(Init(st, config, installedAt), url).handled
  {
  }

  /** The callback is invoked only by `Handle` events: the rest of a trace invokes nothing. */
  lemma {:induction false} OnlyHandleInvokes(st: Sdk, trace: seq<Event>)
    requires forall k :: 0 <= k < |trace| ==> !trace[k].Handle?
    ensures Run(st, trace).invocations == []
    decreases |trace|
  {
    if |trace| > 0 {
      assert !trace[0].Handle?;
      OnlyHandleInvokes(Step(st, trace[0]).state, trace[1..]);
    }
  }

  /** Once `initializeSDK` completes the pending slot is empty, so a later run has nothing to flush. */
  lemma CompletedInitClearsPending(
    st: Sdk, initReply: Reply<InitResponse>, referrer: Option<string>,
    lookupReply: Reply<LookupResponse>, t: int, m: int)
    requires st.instance.Some? && !initReply.Malformed?
    ensures InitializeSDK(st, initReply, referrer, lookupReply, t, m).state.pending.None?
    ensures var s := InitializeSDK(st, initReply, referrer, lookupReply, t, m).state;
            InitializeSDK(s, initReply, referrer, lookupReply, t, m).state.instance.value.callback
              == s.instance.value.callback
  {
  }
}
