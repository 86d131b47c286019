/**
 * HotspotHelper: access to WifiManager's hidden access-point methods, found by
 * name among the declared methods and invoked reflectively. A missing method or
 * an invocation that throws is swallowed: getters fall back to UNKNOWN or null,
 * setters have no effect.
 */
module HotspotHelper {
  import opened Wrappers
  import opened HotspotStates
  import opened Android

  const GET_WIFI_AP_STATE: string := "getWifiApState"
  const SET_WIFI_AP_ENABLED: string := "setWifiApEnabled"
  const GET_WIFI_AP_CONFIGURATION: string := "getWifiApConfiguration"
  const SET_WIFI_AP_CONFIGURATION: string := "setWifiApConfiguration"

  /** Lower-case folding of one character (ASCII letters only). */
  function ToLowerAscii(c: char): char {
    if 'A' <= c <= 'Z' then (c as int + 32) as char else c
  }

  /** String.equalsIgnoreCase, for ASCII case. */
  predicate EqualsIgnoreCase(a: string, b: string) {
    |a| == |b| && forall i :: 0 <= i < |a| ==> ToLowerAscii(a[i]) == ToLowerAscii(b[i])
  }

  /** Whether a declared method answers to the given name. */
  predicate NameMatches(m: DeclaredMethod, name: string) {
    EqualsIgnoreCase(m.name, name)
  }

  /** The position of the first declared method whose name matches, if any. */
  function FirstMatch(methods: seq<DeclaredMethod>, name: string): (r: Option<nat>)
    ensures r.Some? ==> r.value < |methods| && NameMatches(methods[r.value], name)
    ensures r.Some? ==> forall j :: 0 <= j < r.value ==> !NameMatches(methods[j], name)
    ensures r.None? <==> forall j :: 0 <= j < |methods| ==> !NameMatches(methods[j], name)
  {
    if |methods| == 0 then None
    else if NameMatches(methods[0], name) then Some(0)
    else
      match FirstMatch(methods[1..], name)
      case None =>
        assert forall j :: 1 <= j < |methods| ==> methods[j] == methods[1..][j - 1];
        None
      case Some(k) =>
        assert forall j :: 1 <= j <= k ==> methods[j] == methods[1..][j - 1];
        Some(k + 1)
  }

  /** The method getMethodByName finds: the first match, or null. */
  function MethodNamed(methods: seq<DeclaredMethod>, name: string): Option<DeclaredMethod> {
    match FirstMatch(methods, name)
    case Some(i) => Some(methods[i])
    case None => None
  }

  /** getMethodByName: scans the declared methods in order and returns the first whose name matches. */
  method GetMethodByName(methods: seq<DeclaredMethod>, name: string) returns (found: Option<DeclaredMethod>)
    ensures found == MethodNamed(methods, name)
    ensures found.Some? ==> NameMatches(found.value, name) && found.value in methods
    ensures found.None? <==> forall j :: 0 <= j < |methods| ==> !NameMatches(methods[j], name)
  {
    for i := 0 to |methods|
      invariant forall j :: 0 <= j < i ==> !NameMatches(methods[j], name)
    {
      if NameMatches(methods[i], name) {
        return Some(methods[i]);
      }
    }
    return None;
  }

  /** getWifiApStateInternal on a found method: the int it returns, UNKNOWN otherwise. */
  function StateGetterResult(m: Option<DeclaredMethod>): int {
    match m
    case Some(DeclaredMethod(_, Returned(IntValue(raw)))) => raw
    case _ => WIFI_AP_STATE_UNKNOWN
  }

  /** The raw framework state the hidden getter reports on this device. */
  function RawApState(methods: seq<DeclaredMethod>): int {
    StateGetterResult(MethodNamed(methods, GET_WIFI_AP_STATE))
  }

  /**
   * The offset rule of getHotspotState: a raw value below 10 other than UNKNOWN
   * is shifted by +10, so framework values land on broadcast codes.
   */
  function Normalize(raw: int): (s: int)
    ensures raw == WIFI_AP_STATE_UNKNOWN ==> s == WIFI_AP_STATE_UNKNOWN
    ensures FRAMEWORK_DISABLING <= raw <= FRAMEWORK_FAILED ==> s == raw + BROADCAST_OFFSET && IsApState(s)
    ensures raw >= 10 ==> s == raw
    ensures raw >= WIFI_AP_STATE_UNKNOWN ==> s == WIFI_AP_STATE_UNKNOWN || s >= 10
    ensures s == WIFI_AP_STATE_UNKNOWN <==> raw == WIFI_AP_STATE_UNKNOWN || raw == WIFI_AP_STATE_UNKNOWN - BROADCAST_OFFSET
  {
    if raw != WIFI_AP_STATE_UNKNOWN && raw < 10 then raw + BROADCAST_OFFSET else raw
  }

  /** Framework values 0..4 normalise onto DISABLING..FAILED, in order. */
  lemma NormalizeFrameworkValues()
    ensures Normalize(0) == WIFI_AP_STATE_DISABLING
    ensures Normalize(1) == WIFI_AP_STATE_DISABLED
    ensures Normalize(2) == WIFI_AP_STATE_ENABLING
    ensures Normalize(3) == WIFI_AP_STATE_ENABLED
    ensures Normalize(4) == WIFI_AP_STATE_FAILED
  {
  }

  /** Normalising twice is normalising once, for every raw value from UNKNOWN upwards. */
  lemma NormalizeIdempotent(raw: int)
    requires raw >= WIFI_AP_STATE_UNKNOWN
    ensures Normalize(Normalize(raw)) == Normalize(raw)
  {
  }

  /** Below UNKNOWN the rule is not idempotent: -5 becomes 5, which becomes 15. */
  lemma NormalizeNotIdempotentBelowUnknown()
    ensures Normalize(-5) == 5 && Normalize(Normalize(-5)) == 15
  {
  }

  /** Below UNKNOWN, normalising twice agrees with normalising once only for -11, which lands on UNKNOWN. */
  lemma NormalizeIdempotentBelowUnknownOnlyAt(raw: int)
    requires raw < WIFI_AP_STATE_UNKNOWN
    ensures Normalize(Normalize(raw)) == Normalize(raw) <==> raw == WIFI_AP_STATE_UNKNOWN - BROADCAST_OFFSET
  {
  }

  /**
   * A framework value 0..4 read at start-up and the same state arriving in a
   * broadcast (as value + 10) yield the same state code and the same callback.
   */
  lemma BootstrapAgreesWithBroadcast(raw: int)
    requires FRAMEWORK_DISABLING <= raw <= FRAMEWORK_FAILED
    ensures Normalize(raw) == raw + BROADCAST_OFFSET
    ensures CallbackFor(Normalize(raw)) == CallbackFor(raw + BROADCAST_OFFSET)
    ensures CallbackFor(Normalize(raw)).Some?
  {
  }

  /** getWifiApStateInternal: finds and invokes the hidden getter; UNKNOWN if missing or failed. */
  method GetWifiApStateInternal(methods: seq<DeclaredMethod>) returns (raw: int)
    ensures raw == RawApState(methods)
    ensures MethodNamed(methods, GET_WIFI_AP_STATE).None? ==> raw == WIFI_AP_STATE_UNKNOWN
    ensures MethodNamed(methods, GET_WIFI_AP_STATE).Some? && MethodNamed(methods, GET_WIFI_AP_STATE).value.onInvoke.Threw?
      ==> raw == WIFI_AP_STATE_UNKNOWN
  {
    var method_ := GetMethodByName(methods, GET_WIFI_AP_STATE);
    if method_.Some? {
      match method_.value.onInvoke
      case Returned(IntValue(i)) =>
        return i;
      case _ =>
    }
    return WIFI_AP_STATE_UNKNOWN;
  }

  /**
   * getHotspotState: the device's access-point state in broadcast codes. A
   * missing or failing hidden getter gives UNKNOWN; a framework value 0..4 gives
   * the matching code 10..14.
   */
  method GetHotspotState(methods: seq<DeclaredMethod>) returns (state: int)
    ensures state == Normalize(RawApState(methods))
    ensures MethodNamed(methods, GET_WIFI_AP_STATE).None? ==> state == WIFI_AP_STATE_UNKNOWN
    ensures MethodNamed(methods, GET_WIFI_AP_STATE).Some? && MethodNamed(methods, GET_WIFI_AP_STATE).value.onInvoke.Threw?
      ==> state == WIFI_AP_STATE_UNKNOWN
    ensures FRAMEWORK_DISABLING <= RawApState(methods) <= FRAMEWORK_FAILED ==> IsApState(state)
  {
    state := WIFI_AP_STATE_UNKNOWN;
    state := GetWifiApStateInternal(methods);
    if state != WIFI_AP_STATE_UNKNOWN && state < 10 {
      state := state + 10;
    }
  }

  /** getWifiApConfigurationInternal on a found method: the configuration it returns, null otherwise. */
  function ConfigGetterResult(m: Option<DeclaredMethod>): Option<ApConfig> {
    match m
    case Some(DeclaredMethod(_, Returned(ConfigValue(c)))) => Some(c)
    case _ => None
  }

  /** The stored access-point configuration as the hidden getter reports it. */
  function ApConfigOf(methods: seq<DeclaredMethod>): Option<ApConfig> {
    ConfigGetterResult(MethodNamed(methods, GET_WIFI_AP_CONFIGURATION))
  }

  /** getHotspotConfiguration: the stored configuration, or null when the hidden getter is missing or fails. */
  method GetHotspotConfiguration(methods: seq<DeclaredMethod>) returns (config: Option<ApConfig>)
    ensures config == ApConfigOf(methods)
    ensures MethodNamed(methods, GET_WIFI_AP_CONFIGURATION).None? ==> config == None
    ensures MethodNamed(methods, GET_WIFI_AP_CONFIGURATION).Some? && MethodNamed(methods, GET_WIFI_AP_CONFIGURATION).value.onInvoke.Threw?
      ==> config == None
  {
    var method_ := GetMethodByName(methods, GET_WIFI_AP_CONFIGURATION);
    if method_.Some? {
      match method_.value.onInvoke
      case Returned(ConfigValue(c)) =>
        return Some(c);
      case _ =>
    }
    return None;
  }

  /** Whether invoking the named hidden method completes (it exists and does not throw). */
  predicate Invokes(methods: seq<DeclaredMethod>, name: string) {
    MethodNamed(methods, name).Some? && !MethodNamed(methods, name).value.onInvoke.Threw?
  }

  /**
   * setWifiApStateInternal: the one setWifiApEnabled(config, enabled) call it
   * makes, or nothing when the method is missing or throws.
   */
  function SetApEnabledEffects(methods: seq<DeclaredMethod>, config: Option<ApConfig>, enabled: bool): (effects: seq<Effect>)
    ensures |effects| <= 1
    ensures effects != [] <==> Invokes(methods, SET_WIFI_AP_ENABLED)
    ensures forall e :: e in effects ==> e == SetWifiApEnabled(config, enabled)
  {
    if Invokes(methods, SET_WIFI_AP_ENABLED) then [SetWifiApEnabled(config, enabled)] else []
  }

  /** setWifiApConfigurationInternal: the one setWifiApConfiguration(config) call, or nothing. */
  function SetApConfigEffects(methods: seq<DeclaredMethod>, config: Option<ApConfig>): (effects: seq<Effect>)
    ensures |effects| <= 1
    ensures effects != [] <==> Invokes(methods, SET_WIFI_AP_CONFIGURATION)
    ensures forall e :: e in effects ==> e == SetWifiApConfiguration(config)
  {
    if Invokes(methods, SET_WIFI_AP_CONFIGURATION) then [SetWifiApConfiguration(config)] else []
  }

  /**
   * enableHotspot(wm) / disableHotspot(wm): toggle with the currently stored
   * configuration (null when it cannot be read).
   */
  function ToggleEffects(methods: seq<DeclaredMethod>, enabled: bool): (effects: seq<Effect>)
    ensures |effects| <= 1
    ensures effects != [] <==> Invokes(methods, SET_WIFI_AP_ENABLED)
    ensures forall e :: e in effects ==> e == SetWifiApEnabled(ApConfigOf(methods), enabled)
  {
    SetApEnabledEffects(methods, ApConfigOf(methods), enabled)
  }

  /** setWifiApStateInternal. */
  method SetWifiApStateInternal(wm: Platform, config: Option<ApConfig>, enabled: bool)
    modifies wm`log
    ensures wm.log == old(wm.log) + SetApEnabledEffects(wm.wifiMethods, config, enabled)
  {
    var method_ := GetMethodByName(wm.wifiMethods, SET_WIFI_AP_ENABLED);
    if method_.Some? && !method_.value.onInvoke.Threw? {
      wm.log := wm.log + [SetWifiApEnabled(config, enabled)];
    }
  }

  /** setWifiApConfigurationInternal. */
  method SetWifiApConfigurationInternal(wm: Platform, config: Option<ApConfig>)
    modifies wm`log
    ensures wm.log == old(wm.log) + SetApConfigEffects(wm.wifiMethods, config)
  {
    var method_ := GetMethodByName(wm.wifiMethods, SET_WIFI_AP_CONFIGURATION);
    if method_.Some? && !method_.value.onInvoke.Threw? {
      wm.log := wm.log + [SetWifiApConfiguration(config)];
    }
  }

  /** enableHotspot(wm): enable with the stored configuration. */
  method EnableHotspot(wm: Platform)
    modifies wm`log
    ensures wm.log == old(wm.log) + ToggleEffects(wm.wifiMethods, true)
  {
    var config := GetHotspotConfiguration(wm.wifiMethods);
    SetWifiApStateInternal(wm, config, true);
  }

  /** enableHotspot(wm, config): enable with a given configuration. */
  method EnableHotspotWith(wm: Platform, config: Option<ApConfig>)
    modifies wm`log
    ensures wm.log == old(wm.log) + SetApEnabledEffects(wm.wifiMethods, config, true)
  {
    SetWifiApStateInternal(wm, config, true);
  }

  /** disableHotspot(wm): disable, passing the stored configuration. */
  method DisableHotspot(wm: Platform)
    modifies wm`log
    ensures wm.log == old(wm.log) + ToggleEffects(wm.wifiMethods, false)
  {
    var config := GetHotspotConfiguration(wm.wifiMethods);
    SetWifiApStateInternal(wm, config, false);
  }

  /** setHotspotConfiguration. */
  method SetHotspotConfiguration(wm: Platform, config: Option<ApConfig>)
    modifies wm`log
    ensures wm.log == old(wm.log) + SetApConfigEffects(wm.wifiMethods, config)
  {
    SetWifiApConfigurationInternal(wm, config);
  }
}
