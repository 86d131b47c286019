/** Optional values, standing in for Java references that may be null. */
module Wrappers {
  datatype Option<+T> = None | Some(value: T)
}

/**
 * The integer codes of the Wi-Fi access-point life cycle, as carried by the
 * WIFI_AP_STATE_CHANGED broadcast, and the five listener callbacks that
 * correspond to them.
 *
 * The framework's hidden WifiManager constants are 0..4; the broadcast carries
 * them offset by 10, and UNKNOWN (-1) is never offset.
 */
module HotspotStates {
  import opened Wrappers

  const WIFI_AP_STATE_DISABLING: int := 10
  const WIFI_AP_STATE_DISABLED: int := 11
  const WIFI_AP_STATE_ENABLING: int := 12
  const WIFI_AP_STATE_ENABLED: int := 13
  const WIFI_AP_STATE_FAILED: int := 14
  const WIFI_AP_STATE_UNKNOWN: int := -1

  /** The offset between a hidden framework value and its broadcast value. */
  const BROADCAST_OFFSET: int := 10

  /** The hidden framework's own values for the five access-point states. */
  const FRAMEWORK_DISABLING: int := 0
  const FRAMEWORK_FAILED: int := 4

  /** The five callbacks of the state listener interface. */
  datatype Callback = OnEnabling | OnEnabled | OnDisabling | OnDisabled | OnFailed

  /** A code that names one of the five access-point states. */
  predicate IsApState(code: int) {
    WIFI_AP_STATE_DISABLING <= code <= WIFI_AP_STATE_FAILED
  }

  /** The broadcast code a callback announces. */
  function CodeOf(cb: Callback): (code: int)
    ensures IsApState(code)
    ensures code != WIFI_AP_STATE_UNKNOWN
  {
    match cb
    case OnDisabling => WIFI_AP_STATE_DISABLING
    case OnDisabled => WIFI_AP_STATE_DISABLED
    case OnEnabling => WIFI_AP_STATE_ENABLING
    case OnEnabled => WIFI_AP_STATE_ENABLED
    case OnFailed => WIFI_AP_STATE_FAILED
  }

  /**
   * The callback a broadcast code selects: one per recognised code, none for
   * UNKNOWN or any other value (the receiver's switch has no default).
   */
  function CallbackFor(code: int): (r: Option<Callback>)
    ensures r.Some? <==> IsApState(code)
    ensures r.Some? ==> CodeOf(r.value) == code
    ensures code == WIFI_AP_STATE_UNKNOWN ==> r == None
  {
    if code == WIFI_AP_STATE_DISABLING then Some(OnDisabling)
    else if code == WIFI_AP_STATE_DISABLED then Some(OnDisabled)
    else if code == WIFI_AP_STATE_ENABLING then Some(OnEnabling)
    else if code == WIFI_AP_STATE_ENABLED then Some(OnEnabled)
    else if code == WIFI_AP_STATE_FAILED then Some(OnFailed)
    else None
  }

  /** Every callback is selected by exactly its own code. */
  lemma CallbackRoundTrip(cb: Callback)
    ensures CallbackFor(CodeOf(cb)) == Some(cb)
  {
  }

  /**
   * The five access-point states are the consecutive codes 10..14 in the order
   * DISABLING, DISABLED, ENABLING, ENABLED, FAILED; UNKNOWN lies outside them.
   */
  lemma ApStatesAreConsecutive()
    ensures WIFI_AP_STATE_DISABLED == WIFI_AP_STATE_DISABLING + 1
    ensures WIFI_AP_STATE_ENABLING == WIFI_AP_STATE_DISABLED + 1
    ensures WIFI_AP_STATE_ENABLED == WIFI_AP_STATE_ENABLING + 1
    ensures WIFI_AP_STATE_FAILED == WIFI_AP_STATE_ENABLED + 1
    ensures !IsApState(WIFI_AP_STATE_UNKNOWN)
  {
  }

  /** The six state constants are pairwise distinct: codes and callbacks correspond one to one. */
  lemma StateCodesDistinct(a: Callback, b: Callback)
    ensures CodeOf(a) == CodeOf(b) <==> a == b
    ensures CodeOf(a) != WIFI_AP_STATE_UNKNOWN
  {
  }
}
