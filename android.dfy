/**
 * The abstract Android platform the hotspot code runs against: the build
 * number, the permission answers, the WifiManager's hidden methods as a table
 * of outcomes, broadcast intents, and a log of the effects the app has on the
 * system (hidden calls, dialogs, toasts, receiver registrations and listener
 * callbacks).
 */
module Android {
  import opened Wrappers
  import opened HotspotStates

  /** Build.VERSION_CODES used by the hotspot code. */
  const LOLLIPOP: int := 21
  const M: int := 23
  const O: int := 26

  /** An access-point configuration (WifiConfiguration); only its identity matters here. */
  datatype ApConfig = ApConfig(ssid: string, preSharedKey: string)

  /** A value a reflective invocation may return. */
  datatype JavaValue = IntValue(i: int) | ConfigValue(config: ApConfig) | NullValue | VoidValue

  /** The outcome of invoking a hidden method: a returned value or a thrown exception. */
  datatype Invocation = Returned(value: JavaValue) | Threw

  /** One declared method of WifiManager: its name and what invoking it yields on this device. */
  datatype DeclaredMethod = DeclaredMethod(name: string, onInvoke: Invocation)

  /** A state listener, identified by the object the app registers. */
  type ListenerId = nat

  /** A local-only-hotspot reservation handed to the app by the platform. */
  datatype Reservation = Reservation(id: nat)

  /** An extra attached to an intent: an int, or a value of some other type. */
  datatype Extra = IntExtra(i: int) | OtherExtra

  /** A broadcast intent: its action (possibly null) and its extras. */
  datatype Intent = Intent(action: Option<string>, extras: map<string, Extra>)

  /** Intent.getIntExtra: the int stored under the key, or the default when absent or not an int. */
  function GetIntExtra(intent: Intent, key: string, default: int): int {
    if key in intent.extras && intent.extras[key].IntExtra? then intent.extras[key].i else default
  }

  const PERMISSION_ACCESS_COARSE_LOCATION: string := "android.permission.ACCESS_COARSE_LOCATION"

  /** Something the app does to the system, recorded in order. */
  datatype Effect =
    | SetWifiApEnabled(config: Option<ApConfig>, enabled: bool)
    | SetWifiApConfiguration(config: Option<ApConfig>)
    | StartLocalOnlyHotspot
    | CloseReservation(reservation: Reservation)
    | RequestPermissions(permission: string, requestCode: int)
    | WriteSettingsDialog
    | Toast(text: string)
    | RegisterReceiver(receiver: object)
    | UnregisterReceiver(receiver: object)
    | ListenerCallback(listener: ListenerId, callback: Callback)

  /**
   * The Context the app is given, together with the WifiManager it hands out:
   * the immutable SDK_INT and hidden-method table, the permission answers the
   * user may change between calls, and the log of effects.
   */
  class Platform {
    const sdk: int
    const wifiMethods: seq<DeclaredMethod>
    var canWriteSettings: bool
    var coarseLocationGranted: bool
    ghost var log: seq<Effect>

    constructor (sdk: int, wifiMethods: seq<DeclaredMethod>, canWriteSettings: bool, coarseLocationGranted: bool)
      ensures this.sdk == sdk && this.wifiMethods == wifiMethods
      ensures this.canWriteSettings == canWriteSettings
      ensures this.coarseLocationGranted == coarseLocationGranted
      ensures log == []
    {
      this.sdk := sdk;
      this.wifiMethods := wifiMethods;
      this.canWriteSettings := canWriteSettings;
      this.coarseLocationGranted := coarseLocationGranted;
      log := [];
    }
  }
}
