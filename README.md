# Hotspot control and state reconciliation, modelled in Dafny

This project models the hotspot engine of the android-hotspot app in Dafny. The engine turns a phone's Wi-Fi access point on and off and keeps track of its state. The model is written against an abstract Android platform.

The engine has two paths:

- **Legacy path (HotspotManager, Lollipop to Nougat).** It toggles the access point through WifiManager's hidden `setWifiApEnabled`. It is gated by the WRITE_SETTINGS permission.
- **Oreo path (HotspotManagerV26).** It starts a local-only hotspot and keeps the reservation that the platform hands back. Only the holder of that reservation can close it. Starting is gated by the coarse-location permission.

Both managers register a `HotspotReceiver` for the `WIFI_AP_STATE_CHANGED` broadcast. The receiver always writes the new state code into HotspotManager's singleton, even on Oreo. It then fires one listener callback for each recognised code. From Oreo on, that callback goes to HotspotManagerV26's listener, so HotspotManagerV26's own state field is never updated after the singleton is created.

The platform is abstract and is represented as follows:

- **`Android.Platform`** stands for both the Context and the WifiManager. It holds the following:
  - `SDK_INT`, which never changes;
  - WifiManager's declared methods, each paired with what invoking it yields: a returned value, or an exception;
  - the two permission answers, which the user may change between calls;
  - a ghost log of every effect the app has on the system. The log records hidden setter calls, `startLocalOnlyHotspot`, reservation closes, permission requests, the settings dialog, toasts, receiver registration and unregistration, and listener callbacks.
- **`Hotspot.Process`** holds the two static singletons.

The files are:

- `states.dfy` holds the state codes and the five callbacks.
- `android.dfy` holds the platform.
- `helper.dfy` models HotspotHelper: lookup by name, the +10 normalisation, and the hidden getters and setters.
- `receiver_rules.dfy` holds the receiver's filter, parse and dispatch as values.
- `manager_rules.dfy` and `manager_v26_rules.dfy` hold the managers' decisions as values.
- `engine.dfy` holds the classes. Their methods are proved against the value-level functions above.
- `scenarios.dfy` holds two end-to-end scenarios checked by the verifier.

## Model

| member | source | states |
|---|---|---|
| HotspotStates.CodeOf | app/src/main/java/com/harish/hotspot/base/state/HotspotStates.java:16-20 | every callback's code is one of the five access-point codes 10..14, never UNKNOWN |
| HotspotStates.CallbackFor | app/src/main/java/com/harish/hotspot/base/receiver/HotspotReceiver.java:48-104 | a code selects a callback iff it is 10..14, and then exactly the callback whose code it is; UNKNOWN and every other value select none (no default case) |
| HotspotStates.CallbackRoundTrip | app/src/main/java/com/harish/hotspot/base/receiver/HotspotReceiver.java:48-103 | each callback is fired by its own code: 10 onDisabling, 11 onDisabled, 12 onEnabling, 13 onEnabled, 14 onFailed |
| HotspotStates.ApStatesAreConsecutive | app/src/main/java/com/harish/hotspot/base/state/HotspotStates.java:16-21 | DISABLING..FAILED are the consecutive codes 10..14 in that order; UNKNOWN (-1) is outside them |
| HotspotStates.StateCodesDistinct | app/src/main/java/com/harish/hotspot/base/state/HotspotStates.java:16-21 | the six constants are pairwise distinct |
| HotspotHelper.FirstMatch | app/src/main/java/com/harish/hotspot/base/controller/HotspotHelper.java:181-188 | the position found matches the name ignoring case and no earlier method matches; none is found iff no declared method matches |
| HotspotHelper.GetMethodByName | app/src/main/java/com/harish/hotspot/base/controller/HotspotHelper.java:181-188 | the loop returns the first declared method whose name equals the requested one ignoring case, or null iff there is none |
| HotspotHelper.Normalize | app/src/main/java/com/harish/hotspot/base/controller/HotspotHelper.java:33-46 | UNKNOWN stays UNKNOWN; framework 0..4 become 10..14; values of 10 or more are unchanged; from -1 upwards the result is UNKNOWN or at least 10; the result is UNKNOWN exactly for raw -1 and raw -11 |
| HotspotHelper.NormalizeFrameworkValues | app/src/main/java/com/harish/hotspot/base/controller/HotspotHelper.java:37-41 | raw 0..4 normalise exactly onto DISABLING, DISABLED, ENABLING, ENABLED, FAILED |
| HotspotHelper.NormalizeIdempotent | app/src/main/java/com/harish/hotspot/base/controller/HotspotHelper.java:38-41 | normalising twice equals normalising once for every raw value of at least -1 |
| HotspotHelper.NormalizeNotIdempotentBelowUnknown | app/src/main/java/com/harish/hotspot/base/controller/HotspotHelper.java:38-41 | below -1 it is not: -5 becomes 5 and then 15 |
| HotspotHelper.NormalizeIdempotentBelowUnknownOnlyAt | app/src/main/java/com/harish/hotspot/base/controller/HotspotHelper.java:38-41 | below -1, normalising twice equals normalising once exactly for -11, which lands on UNKNOWN |
| HotspotHelper.BootstrapAgreesWithBroadcast | app/src/main/java/com/harish/hotspot/base/state/HotspotStates.java:11-12 | a framework value r in 0..4 read at start-up normalises to r+10, the code the same state carries in a broadcast, and selects the same (present) callback |
| HotspotHelper.GetWifiApStateInternal | app/src/main/java/com/harish/hotspot/base/controller/HotspotHelper.java:97-107 | the hidden getter's int, or UNKNOWN when the method is not found or its invocation throws |
| HotspotHelper.GetHotspotState | app/src/main/java/com/harish/hotspot/base/controller/HotspotHelper.java:33-46 | the normalised hidden state; UNKNOWN when the getter is missing or fails; an access-point code whenever the framework reports 0..4 |
| HotspotHelper.GetHotspotConfiguration | app/src/main/java/com/harish/hotspot/base/controller/HotspotHelper.java:77-79 | the stored configuration, or null when the hidden getter is missing or throws |
| HotspotHelper.SetApEnabledEffects | app/src/main/java/com/harish/hotspot/base/controller/HotspotHelper.java:115-129 | at most one `setWifiApEnabled(config, flag)` call with exactly the given arguments, made iff the method exists and does not throw; otherwise no effect |
| HotspotHelper.SetApConfigEffects | app/src/main/java/com/harish/hotspot/base/controller/HotspotHelper.java:155-164 | at most one `setWifiApConfiguration(config)` call, made iff the method exists and does not throw; otherwise no effect |
| HotspotHelper.ToggleEffects | app/src/main/java/com/harish/hotspot/base/controller/HotspotHelper.java:52-70 | enable/disable call the setter with the currently stored configuration (null if unreadable) and true/false |
| HotspotHelper.SetWifiApStateInternal | app/src/main/java/com/harish/hotspot/base/controller/HotspotHelper.java:115-129 | appends exactly the setter effect above to the platform log, nothing else |
| HotspotHelper.SetWifiApConfigurationInternal | app/src/main/java/com/harish/hotspot/base/controller/HotspotHelper.java:155-164 | appends exactly the configuration-setter effect above, nothing else |
| HotspotHelper.EnableHotspot | app/src/main/java/com/harish/hotspot/base/controller/HotspotHelper.java:52-54 | reads the stored configuration and toggles on with it |
| HotspotHelper.EnableHotspotWith | app/src/main/java/com/harish/hotspot/base/controller/HotspotHelper.java:60-62 | toggles on with the configuration given |
| HotspotHelper.DisableHotspot | app/src/main/java/com/harish/hotspot/base/controller/HotspotHelper.java:68-70 | reads the stored configuration and toggles off with it |
| HotspotHelper.SetHotspotConfiguration | app/src/main/java/com/harish/hotspot/base/controller/HotspotHelper.java:86-88 | hands the configuration to the hidden setter, with no effect if it is missing or throws |
| ReceiverRules.StateChangeOf | app/src/main/java/com/harish/hotspot/base/receiver/HotspotReceiver.java:31-36 | a state change is read iff the action equals WIFI_AP_STATE_CHANGED ignoring case (a null action never does); missing extras read as -1, present int extras as their value (the filter of line 32 is its helper IsStateChangeAction) |
| ReceiverRules.CallbackEffects | app/src/main/java/com/harish/hotspot/base/receiver/HotspotReceiver.java:48-104 | at most one callback; exactly one iff the code is 10..14 and the target listener is set; it announces that code and goes to the V26 manager's listener when SDK >= 26, else to HotspotManager's (the SDK test at lines 50 and 54 is its helper DispatchTarget) |
| ReceiverRules.StateAfterReceive | app/src/main/java/com/harish/hotspot/base/receiver/HotspotReceiver.java:32-46 | a non-matching intent leaves HotspotManager's state alone; a matching one sets it to the `wifi_state` extra (or -1), recognised or not |
| ReceiverRules.EffectsOfReceive | app/src/main/java/com/harish/hotspot/base/receiver/HotspotReceiver.java:31-36 | a non-matching intent fires no callback; any intent fires at most one |
| ReceiverRules.PreviousStateIgnored | app/src/main/java/com/harish/hotspot/base/receiver/HotspotReceiver.java:44-105 | two intents that differ only in `previous_wifi_state` have the same outcome |
| ReceiverRules.LastBroadcastWins | app/src/main/java/com/harish/hotspot/base/receiver/HotspotReceiver.java:46 | after any sequence of intents, HotspotManager's state is the `wifi_state` of the last matching one, or unchanged if none matched |
| ReceiverRules.OneCallbackPerAnnouncement | app/src/main/java/com/harish/hotspot/base/receiver/HotspotReceiver.java:48-104 | over any sequence of intents, the callbacks fired number exactly the matching intents with a code 10..14 when the target listener is set, and none when it is null |
| Scenarios.UpperCaseActionMatches | app/src/main/java/com/harish/hotspot/base/receiver/HotspotReceiver.java:32 | the upper-cased action passes the filter |
| ManagerRules.ToggleRequestEffects | app/src/main/java/com/harish/hotspot/base/HotspotManager.java:138-185 | the toggle is issued iff WRITE_SETTINGS holds, 21 <= SDK < 26 and the setter works; with permission on other builds nothing happens; without permission only the settings dialog is shown; the "Unable to modify system settings" toast never appears |
| ManagerRules.PermissionIgnoredBelowMarshmallow | app/src/main/java/com/harish/hotspot/base/HotspotManager.java:204-207 | below SDK 23 the canWrite answer makes no difference |
| ManagerRules.EnableDisableSymmetric | app/src/main/java/com/harish/hotspot/base/HotspotManager.java:138-185 | enable and disable have the same effects except for the flag passed to the toggle |
| ManagerV26Rules.EnableEffects | app/src/main/java/com/harish/hotspot/base/HotspotManagerV26.java:150-172 | on SDK >= 26 exactly one effect: `startLocalOnlyHotspot` iff coarse location is granted, else a permission request with code 101; on 21..25 the helper's toggle without any permission check; below 21 nothing |
| ManagerV26Rules.EnableIgnoresLocationBeforeOreo | app/src/main/java/com/harish/hotspot/base/HotspotManagerV26.java:157-160 | before Oreo the location answer makes no difference |
| ManagerV26Rules.DisableStep | app/src/main/java/com/harish/hotspot/base/HotspotManagerV26.java:177-198 | on SDK >= 26 the reservation is always dropped, a held one is closed exactly once, and without one only the not-owner message is shown; on 21..25 the helper toggles off and the reservation is kept; below 21 nothing; any close is of the held reservation |
| ManagerV26Rules.SecondDisableIsNotOwner | app/src/main/java/com/harish/hotspot/base/HotspotManagerV26.java:190-196 | two disables in a row on SDK >= 26: the second always takes the not-owner branch |
| ManagerV26Rules.ConfigurationOf | app/src/main/java/com/harish/hotspot/base/HotspotManagerV26.java:206-218 | null unless 21 <= SDK < 26, where it is the helper's stored configuration |
| ManagerV26Rules.ClosesOnlyDelivered | app/src/main/java/com/harish/hotspot/base/HotspotManagerV26.java:55-60 | over any sequence of enables, disables and onStarted deliveries, every reservation the app closes was the one held at the start or one delivered by onStarted |
| ManagerV26Rules.RepeatedDisableClosesOnce | app/src/main/java/com/harish/hotspot/base/HotspotManagerV26.java:189-196 | n >= 1 disables in a row on SDK >= 26 close a held reservation once in total, close nothing if none was held, and leave none held |
| Hotspot.Process.constructor | app/src/main/java/com/harish/hotspot/base/HotspotManager.java:36 | both singletons start absent |
| Hotspot.HotspotReceiver.OnReceive | app/src/main/java/com/harish/hotspot/base/receiver/HotspotReceiver.java:31-36 | a non-matching intent changes no state and logs nothing; a matching one writes `wifi_state` into HotspotManager and logs exactly the dispatched callbacks; a singleton the broadcast creates starts with no listener, receiver, WifiManager or reservation, and HotspotManagerV26's is created exactly when SDK >= 26 and the code is 10..14, with its state read through HotspotHelper |
| Hotspot.HotspotReceiver.HandleStateChangeInfo | app/src/main/java/com/harish/hotspot/base/receiver/HotspotReceiver.java:44-105 | HotspotManager's state (bootstrapping the singleton if needed) becomes nextState; the log grows by exactly the callback dispatch; HotspotManagerV26's state is never touched, and its singleton is created exactly on SDK >= 26 for a code 10..14, with the helper's normalised state and no listener, receiver, WifiManager or reservation |
| Hotspot.HotspotManager.constructor | app/src/main/java/com/harish/hotspot/base/HotspotManager.java:39-52 | state starts UNKNOWN, with no listener and no receiver |
| Hotspot.HotspotManager.GetInstance | app/src/main/java/com/harish/hotspot/base/HotspotManager.java:55-63 | the first call creates the singleton with the helper's normalised state; later calls return the same object without reading again |
| Hotspot.HotspotManager.GetHotspotState | app/src/main/java/com/harish/hotspot/base/HotspotManager.java:71-73 | returns the stored state: the bootstrap value until a broadcast or setHotspotState replaces it |
| Hotspot.HotspotManager.GetHotspotStateListener | app/src/main/java/com/harish/hotspot/base/HotspotManager.java:88-90 | returns the listener last set, or none after a removal |
| Hotspot.HotspotManager.SetHotspotState | app/src/main/java/com/harish/hotspot/base/HotspotManager.java:71-83 | getHotspotState afterwards returns the value given; only the state field changes |
| Hotspot.HotspotManager.SetHotspotStateListener | app/src/main/java/com/harish/hotspot/base/HotspotManager.java:97-102 | stores the listener, keeps an existing receiver or creates one, and registers it on every call |
| Hotspot.HotspotManager.RemoveHotspotStateListener | app/src/main/java/com/harish/hotspot/base/HotspotManager.java:107-111 | clears listener and receiver; unregisters only if a receiver existed, so a second removal logs nothing |
| Hotspot.HotspotManager.RegisterInternal | app/src/main/java/com/harish/hotspot/base/HotspotManager.java:116-123 | creates the receiver only if absent; logs one registration |
| Hotspot.HotspotManager.UnregisterInternal | app/src/main/java/com/harish/hotspot/base/HotspotManager.java:128-133 | unregisters and drops the receiver only if present |
| Hotspot.HotspotManager.EnableHotspot | app/src/main/java/com/harish/hotspot/base/HotspotManager.java:138-159 | logs exactly the effects of the permission gate and version-gated toggle; the WifiManager is fetched only with permission; the state field is unchanged |
| Hotspot.HotspotManager.DisableHotspot | app/src/main/java/com/harish/hotspot/base/HotspotManager.java:164-185 | the same, toggling off |
| Hotspot.HotspotManager.ToggleRequest | app/src/main/java/com/harish/hotspot/base/HotspotManager.java:138-185 | the shared body of enable and disable, with the unreachable toast branch proved dead |
| Hotspot.HotspotManager.CheckSelfPermission | app/src/main/java/com/harish/hotspot/base/HotspotManager.java:204-207 | permission holds iff SDK < 23 or WRITE_SETTINGS is granted; it always holds below 23 |
| Hotspot.HotspotManagerV26.constructor | app/src/main/java/com/harish/hotspot/base/HotspotManagerV26.java:40-64 | state starts UNKNOWN, with no listener, receiver or reservation |
| Hotspot.HotspotManagerV26.GetInstance | app/src/main/java/com/harish/hotspot/base/HotspotManagerV26.java:67-75 | lazy creation with the initial state read once |
| Hotspot.HotspotManagerV26.OnStarted | app/src/main/java/com/harish/hotspot/base/HotspotManagerV26.java:55-60 | stores the delivered reservation, replacing any held one |
| Hotspot.HotspotManagerV26.GetHotspotState | app/src/main/java/com/harish/hotspot/base/HotspotManagerV26.java:83-85 | returns the stored state; no broadcast ever writes it, so it keeps its bootstrap value unless setHotspotState is called |
| Hotspot.HotspotManagerV26.GetHotspotStateListener | app/src/main/java/com/harish/hotspot/base/HotspotManagerV26.java:100-102 | returns the listener last set, or none after a removal |
| Hotspot.HotspotManagerV26.SetHotspotState | app/src/main/java/com/harish/hotspot/base/HotspotManagerV26.java:83-95 | getHotspotState afterwards returns the value given |
| Hotspot.HotspotManagerV26.SetHotspotStateListener | app/src/main/java/com/harish/hotspot/base/HotspotManagerV26.java:109-135 | same life cycle as HotspotManager: create the receiver if absent, register on every call |
| Hotspot.HotspotManagerV26.RemoveHotspotStateListener | app/src/main/java/com/harish/hotspot/base/HotspotManagerV26.java:119-145 | same life cycle as HotspotManager: unregister and drop only if present |
| Hotspot.HotspotManagerV26.RegisterInternal | app/src/main/java/com/harish/hotspot/base/HotspotManagerV26.java:128-135 | creates the receiver only if absent; logs one registration |
| Hotspot.HotspotManagerV26.UnregisterInternal | app/src/main/java/com/harish/hotspot/base/HotspotManagerV26.java:140-145 | unregisters and drops the receiver only if present |
| Hotspot.HotspotManagerV26.EnableHotspot | app/src/main/java/com/harish/hotspot/base/HotspotManagerV26.java:150-172 | logs exactly `EnableEffects`; the state and the reservation are unchanged |
| Hotspot.HotspotManagerV26.DisableHotspot | app/src/main/java/com/harish/hotspot/base/HotspotManagerV26.java:177-198 | the new reservation and the logged effects are exactly `DisableStep`'s; the state is unchanged; no permission is consulted |
| Hotspot.HotspotManagerV26.GetHotspotConfiguration | app/src/main/java/com/harish/hotspot/base/HotspotManagerV26.java:206-218 | returns `ConfigurationOf`: null unless 21 <= SDK < 26 |
| Hotspot.HotspotManagerV26.SetWifiConfiguration | app/src/main/java/com/harish/hotspot/base/HotspotManagerV26.java:226-228 | changes nothing at all |

## Left out

- The IHotspotManager interface is not declared as a separate type. Both manager classes still provide its members.
- The state listener is modelled by an identity (`ListenerId`). Its five callbacks become log entries, and the listener's own code (MainActivity) is not modelled.
- MainActivity is left out because it is user interface. This includes its "enable only when DISABLED, disable only when ENABLED" guard, so the managers' enable and disable do not assume that guard. MainActivity also calls `getHotspotConfiguration` and `setWifiConfiguration` on HotspotManager, which that class does not define. No configuration exchange is invented for the legacy manager.
- The table of hidden WifiManager methods (`Platform.wifiMethods`) is fixed for the whole run, and each method's outcome is fixed with it. The app's own hidden calls never change what later calls report: a `setWifiApConfiguration` is not seen by a later `getWifiApConfiguration` (so the configuration that HotspotHelper.EnableHotspot and DisableHotspot pass on stays the stored one), and a `setWifiApEnabled` does not change what `getWifiApState` reports.
- The `e.printStackTrace()` logging in HotspotHelper's catch blocks (HotspotHelper.java lines 43, 103, 126, 143 and 161) is left out. It is diagnostic output only and changes no result.
- Reflection mechanics (`getDeclaredMethods`, `setAccessible`, `invoke`) are replaced by a table of declared methods and their outcomes. An outcome does not depend on the arguments passed.
- HotspotHelper.EqualsIgnoreCase folds ASCII letters only. Java's `equalsIgnoreCase` also folds other alphabets.
- HotspotHelper.GetWifiApStateInternal treats a hidden getter that returns something other than an int as UNKNOWN. In Java the cast throws ClassCastException or NullPointerException, which is not caught.
- HotspotHelper.GetHotspotConfiguration treats a returned int as null. In Java that is an uncaught ClassCastException.
- HotspotHelper.SetApEnabledEffects and HotspotHelper.SetApConfigEffects record the hidden call only when the invocation returns normally. Any partial effect of an invocation that throws is not modelled.
- The `NoSuchMethodException` handler in `getHotspotState` is dead code, because `getWifiApStateInternal` never throws it. It is not modelled.
- `getWifiManager` is modelled by the flag `hasWifiManager`. The system-service lookup always yields the platform's one WifiManager.
- Platform calls are recorded as log entries and not executed. These are Toast, AlertDialog (and the settings screen its button opens), `ActivityCompat.requestPermissions`, `registerReceiver`/`unregisterReceiver`, `startLocalOnlyHotspot` and `reservation.close`. The platform's own rules for these calls are not modelled. For example, broadcasts are delivered only to registered receivers, and unregistering an unknown receiver throws.
- The cast of the context to Activity in HotspotManagerV26's permission request is not modelled. That cast throws when the context is not an Activity.
- The local-only hotspot callback's `onStopped` and `onFailed` are not overridden in the source, so they are not modelled.
- `synchronized` on `handleStateChangeInfo` and platform callback threading are left out. Everything is sequential.
- TAG strings and string resources are left out.
- The code does not have the following, so neither does the model:
  - a callback for UNKNOWN or any other code outside 10..14 (the switch in HotspotReceiver has no default);
  - a rejection of broadcasts with missing extras (they are read as -1 and stored);
  - an error result when a disable finds no reservation (HotspotManagerV26 shows a toast instead);
  - an error for configuration access on Oreo and later (getHotspotConfiguration returns null and setWifiConfiguration does nothing);
  - a refusal to start a second local-only hotspot while a reservation is held (enableHotspot always asks again);
  - several listeners at once (each manager keeps one).
