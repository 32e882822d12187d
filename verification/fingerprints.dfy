/**
 * The device fingerprint sent to the matching service: screen metrics chosen
 * from configuration overrides or the display, the hardware-fingerprint hash
 * over a `|`-joined component list, and the payload record itself.
 */
module Fingerprints {
  import opened Base
  import opened Text
  import opened Int32

  /**
   * A Kotlin `Float` is carried as the text `Float.toString` gives for it:
   * the SDK only compares, copies and stringifies these values.
   */
  type FloatText = string

  /** The SDK configuration (`DLNConfig`). */
  datatype Config = Config(
    apiKey: string,
    enableLogs: bool,
    overrideScreenWidth: Option<int>,
    overrideScreenHeight: Option<int>,
    overridePixelRatio: Option<FloatText>)

  /**
   * What the platform reports about the screen. `fallbackWidth` and
   * `fallbackHeight` are the already-rounded products of the configuration's
   * density-independent size and the density.
   */
  datatype Display = Display(
    widthPixels: int,
    heightPixels: int,
    density: FloatText,
    fallbackWidth: int,
    fallbackHeight: int)

  /** Platform reads that feed the fingerprint, passed in as values. */
  datatype Device = Device(
    osVersion: string,
    model: string,
    language: string,
    timezone: string,
    androidId: Option<string>,
    display: Display)

  datatype Screen = Screen(width: int, height: int, pixelRatio: FloatText)

  /** The match-request payload (`Fingerprint`). */
  datatype Fingerprint = Fingerprint(
    userAgent: string,
    platform: string,
    osVersion: string,
    deviceModel: string,
    language: string,
    timezone: string,
    installedAt: string,
    lastOpenedAt: string,
    deviceId: Option<string>,
    advertisingId: string,
    vendorId: string,
    hardwareFingerprint: Option<string>,
    screenWidth: Option<int>,
    screenHeight: Option<int>,
    pixelRatio: Option<FloatText>)

  // ---------------------------------------------------------------------------
  // simpleHash

  /** The UTF-16 code units of one character, as Kotlin iterates a `String`. */
  function Utf16(c: char): (units: seq<int>)
    ensures 1 <= |units| <= 2
    ensures forall k :: 0 <= k < |units| ==> 0 <= units[k] < 0x1_0000
    ensures |units| == 1 <==> c as int < 0x1_0000
    ensures |units| == 1 ==> units[0] == c as int
    ensures |units| == 2 ==>
      && 0xD800 <= units[0] < 0xDC00 <= units[1] < 0xE000
      && (units[0] - 0xD800) * 0x400 + (units[1] - 0xDC00) + 0x1_0000 == c as int
  {
    if c as int < 0x1_0000 then [c as int]
    else
      var v := c as int - 0x1_0000;
      [0xD800 + v / 0x400, 0xDC00 + v % 0x400]
  }

  function CodeUnits(s: string): seq<int>
    decreases |s|
  {
    if |s| == 0 then [] else Utf16(s[0]) + CodeUnits(s[1..])
  }

  /** One pass of the `simpleHash` loop body with Kotlin's wrapping `Int` operators; `hash and hash` leaves the value unchanged. */
  function LoopStep(hash: int, unit: int): int {
    Plus(Minus(Shl5(hash), hash), unit)
  }

  /** The rolling hash `h := wrap(h * 31 + unit)` folded from 0. */
  function RollingHash(units: seq<int>): (h: int)
    decreases |units|
    ensures IsInt32(h)
  {
    if |units| == 0 then 0
    else Wrap(RollingHash(units[..|units| - 1]) * 31 + units[|units| - 1])
  }

  /** The polynomial `sum units[k] * 31^(n-1-k)` with no wrap-around. */
  function Polynomial(units: seq<int>): int
    decreases |units|
  {
    if |units| == 0 then 0
    else Polynomial(units[..|units| - 1]) * 31 + units[|units| - 1]
  }

  /** Shift-and-subtract with wrap-around is multiplication by 31 with wrap-around. */
  lemma LoopStepIsTimes31(hash: int, unit: int)
    requires IsInt32(hash)
    ensures LoopStep(hash, unit) == Wrap(hash * 31 + unit)
  {
    WrapInner(hash * 32, 1, -hash);
    assert Minus(Shl5(hash), hash) == Wrap(hash * 31);
    WrapInner(hash * 31, 1, unit);
  }

  /** Wrapping after every step gives the polynomial wrapped once. */
  lemma {:induction false} RollingHashIsWrappedPolynomial(units: seq<int>)
    decreases |units|
    ensures RollingHash(units) == Wrap(Polynomial(units))
  {
    if |units| > 0 {
      var init := units[..|units| - 1];
      RollingHashIsWrappedPolynomial(init);
      WrapInner(Polynomial(init), 31, units[|units| - 1]);
    }
  }

  /** The hash `simpleHash` returns, rendered by `Int.toString(16)`. */
  function HashHex(s: string): (hex: string)
    ensures hex == IntToString(Wrap(Polynomial(CodeUnits(s))), 16)
    ensures ParseInt(hex, 16) == Some(Wrap(Polynomial(CodeUnits(s))))
    ensures hex[0] == '-' <==> Wrap(Polynomial(CodeUnits(s))) < 0
  {
    var h := RollingHash(CodeUnits(s));
    RollingHashIsWrappedPolynomial(CodeUnits(s));
    IntRoundTrip(h, 16);
    IntToString(h, 16)
  }

  /** `simpleHash`, loop for loop. */
  method SimpleHash(str: string) returns (hex: string)
    ensures hex == IntToString(Wrap(Polynomial(CodeUnits(str))), 16)
    ensures str == "" ==> hex == "0"
  {
    var units := CodeUnits(str);
    var hash := 0;
    var i := 0;
    while i < |units|
      invariant 0 <= i <= |units|
      invariant hash == RollingHash(units[..i])
    {
      LoopStepIsTimes31(hash, units[i]);
      assert units[..i + 1][..i] == units[..i];
      hash := LoopStep(hash, units[i]);
      i := i + 1;
    }
    assert units[..|units|] == units;
    RollingHashIsWrappedPolynomial(units);
    hex := IntToString(hash, 16);
  }

  // ---------------------------------------------------------------------------
  // generateHardwareFingerprint

  function OptionalText(o: Option<string>): seq<string> {
    if o.Some? then [o.value] else []
  }

  function OptionalInt(o: Option<int>): seq<string> {
    if o.Some? then [IntToString(o.value, 10)] else []
  }

  /** The component list after `filterNotNull`, in the order the source lists it. */
  function Components(
    platform: string, osVersion: string, width: Option<int>, height: Option<int>,
    pixelRatio: Option<FloatText>, language: string, timezone: string): (cs: seq<string>)
    ensures |cs| == 4 + |OptionalInt(width)| + |OptionalInt(height)| + |OptionalText(pixelRatio)|
    ensures cs[0] == platform && cs[1] == osVersion
    ensures cs[|cs| - 2] == language && cs[|cs| - 1] == timezone
    ensures cs[2..|cs| - 2] == OptionalInt(width) + OptionalInt(height) + OptionalText(pixelRatio)
  {
    [platform, osVersion] + OptionalInt(width) + OptionalInt(height) + OptionalText(pixelRatio)
      + [language, timezone]
  }

  /** `generateHardwareFingerprint`: the hash of the components joined with `|`. */
  function HardwareFingerprint(
    platform: string, osVersion: string, width: Option<int>, height: Option<int>,
    pixelRatio: Option<FloatText>, language: string, timezone: string): (r: string)
    ensures
      var joined := Join(Components(platform, osVersion, width, height, pixelRatio, language, timezone), "|");
      && r == IntToString(Wrap(Polynomial(CodeUnits(joined))), 16)
      && ParseInt(r, 16) == Some(Wrap(Polynomial(CodeUnits(joined))))
  {
    HashHex(Join(Components(platform, osVersion, width, height, pixelRatio, language, timezone), "|"))
  }

  predicate NoBar(cs: seq<string>) {
    forall k :: 0 <= k < |cs| ==> '|' !in cs[k]
  }

  /**
   * The string that is hashed determines the component list: two component
   * lists free of `|` that join to the same string are the same list.
   */
  lemma JoinedComponentsDetermineComponents(a: seq<string>, b: seq<string>)
    requires |a| >= 1 && |b| >= 1 && NoBar(a) && NoBar(b)
    requires Join(a, "|") == Join(b, "|")
    ensures a == b
  {
    SplitJoin(a, '|');
    SplitJoin(b, '|');
  }

  // ---------------------------------------------------------------------------
  // Screen metrics in getFingerprint

  const MinWidth := 320
  const MaxWidth := 1440
  const MinHeight := 480
  const MaxHeight := 2960

  /** The sanity window raw pixel counts must fall in, bounds included. */
  predicate Plausible(width: int, height: int) {
    MinWidth <= width <= MaxWidth && MinHeight <= height <= MaxHeight
  }

  /** The screen-metric branch of `getFingerprint`. */
  function SelectScreen(config: Config, display: Display): (s: Screen)
    ensures config.overrideScreenWidth.Some? && config.overrideScreenHeight.Some? ==>
      s == Screen(config.overrideScreenWidth.value, config.overrideScreenHeight.value,
                  config.overridePixelRatio.GetOr(display.density))
    ensures !(config.overrideScreenWidth.Some? && config.overrideScreenHeight.Some?) ==>
      s.pixelRatio == display.density &&
      (if Plausible(display.widthPixels, display.heightPixels)
       then s.width == display.widthPixels && s.height == display.heightPixels
       else s.width == display.fallbackWidth && s.height == display.fallbackHeight)
  {
    if config.overrideScreenWidth.Some? && config.overrideScreenHeight.Some? then
      Screen(config.overrideScreenWidth.value, config.overrideScreenHeight.value,
             config.overridePixelRatio.GetOr(display.density))
    else if Plausible(display.widthPixels, display.heightPixels) then
      Screen(display.widthPixels, display.heightPixels, display.density)
    else
      Screen(display.fallbackWidth, display.fallbackHeight, display.density)
  }

  /**
   * Without both size overrides a raw pixel count outside the sanity window
   * never reaches the fingerprint: the width is in the window or is the fallback.
   */
  lemma RawSizeOutsideWindowNeverUsed(config: Config, display: Display)
    requires !(config.overrideScreenWidth.Some? && config.overrideScreenHeight.Some?)
    requires !Plausible(display.widthPixels, display.heightPixels)
    ensures SelectScreen(config, display).width == display.fallbackWidth
    ensures SelectScreen(config, display).height == display.fallbackHeight
  {
  }

  /** A pixel-ratio override without both size overrides changes nothing. */
  lemma PixelRatioOverrideAloneIgnored(config: Config, display: Display, ratio: Option<FloatText>)
    requires !(config.overrideScreenWidth.Some? && config.overrideScreenHeight.Some?)
    ensures SelectScreen(config.(overridePixelRatio := ratio), display) == SelectScreen(config, display)
  {
  }

  // ---------------------------------------------------------------------------
  // getFingerprint

  const UserAgentHead := "Mozilla/5.0 (Linux; Android "
  const UserAgentTail := ") AppleWebKit/537.36 (KHTML, like Gecko) Chrome/91.0.4472.120 Mobile Safari/537.36"

  /**
   * `getFingerprint`: `installedAt` is the instance's install time, `now` the
   * current time, both already formatted.
   */
  function BuildFingerprint(config: Config, device: Device, installedAt: string, now: string): (f: Fingerprint)
    ensures f.platform == "android" && f.advertisingId == "" && f.vendorId == ""
    ensures f.installedAt == installedAt && f.lastOpenedAt == now
    ensures f.deviceId == device.androidId
    ensures f.osVersion == device.osVersion && f.deviceModel == device.model
    ensures f.language == device.language && f.timezone == device.timezone
    ensures f.userAgent == UserAgentHead + device.osVersion + "; " + device.model + UserAgentTail
    ensures StartsWith(f.userAgent, UserAgentHead) && EndsWith(f.userAgent, UserAgentTail)
    ensures
      var s := SelectScreen(config, device.display);
      && f.screenWidth == Some(s.width)
      && f.screenHeight == Some(s.height)
      && f.pixelRatio == Some(s.pixelRatio)
      && f.hardwareFingerprint == Some(HardwareFingerprint(
           "android", device.osVersion, Some(s.width), Some(s.height), Some(s.pixelRatio),
           device.language, device.timezone))
  {
    var s := SelectScreen(config, device.display);
    var ua := UserAgentHead + device.osVersion + "; " + device.model + UserAgentTail;
    assert ua[..|UserAgentHead|] == UserAgentHead;
    assert ua[|ua| - |UserAgentTail|..] == UserAgentTail;
    Fingerprint(
      userAgent := ua,
      platform := "android",
      osVersion := device.osVersion,
      deviceModel := device.model,
      language := device.language,
      timezone := device.timezone,
      installedAt := installedAt,
      lastOpenedAt := now,
      deviceId := device.androidId,
      advertisingId := "",
      vendorId := "",
      hardwareFingerprint := Some(HardwareFingerprint(
        "android", device.osVersion, Some(s.width), Some(s.height), Some(s.pixelRatio),
        device.language, device.timezone)),
      screenWidth := Some(s.width),
      screenHeight := Some(s.height),
      pixelRatio := Some(s.pixelRatio))
  }
}
