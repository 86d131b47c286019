/**
 * What HotspotReceiver does with a broadcast, as values: the action filter,
 * the extras with their -1 defaults, the unconditional state write and the
 * single callback chosen by the new state code.
 */
module ReceiverRules {
  import opened Wrappers
  import opened HotspotStates
  import opened Android
  import opened HotspotHelper

  const ACTION_HOTSPOT_STATE_CHANGE: string := "android.net.wifi.WIFI_AP_STATE_CHANGED"
  const EXTRA_PREVIOUS_WIFI_AP_STATE: string := "previous_wifi_state"
  const EXTRA_WIFI_AP_STATE: string := "wifi_state"

  /** A parsed state-change broadcast. */
  datatype StateChange = StateChange(previous: int, next: int)

  /** The action filter: equal to ACTION_HOTSPOT_STATE_CHANGE ignoring case; a null action never matches. */
  predicate IsStateChangeAction(action: Option<string>) {
    action.Some? && EqualsIgnoreCase(ACTION_HOTSPOT_STATE_CHANGE, action.value)
  }

  /** onReceive's parse: a state change for a matching action, with missing extras read as -1. */
  function StateChangeOf(intent: Intent): (r: Option<StateChange>)
    ensures r.Some? <==> IsStateChangeAction(intent.action)
    ensures r.Some? && EXTRA_WIFI_AP_STATE !in intent.extras ==> r.value.next == WIFI_AP_STATE_UNKNOWN
    ensures r.Some? && EXTRA_PREVIOUS_WIFI_AP_STATE !in intent.extras ==> r.value.previous == WIFI_AP_STATE_UNKNOWN
    ensures r.Some? && EXTRA_WIFI_AP_STATE in intent.extras && intent.extras[EXTRA_WIFI_AP_STATE].IntExtra?
      ==> r.value.next == intent.extras[EXTRA_WIFI_AP_STATE].i
    ensures r.Some? && EXTRA_PREVIOUS_WIFI_AP_STATE in intent.extras && intent.extras[EXTRA_PREVIOUS_WIFI_AP_STATE].IntExtra?
      ==> r.value.previous == intent.extras[EXTRA_PREVIOUS_WIFI_AP_STATE].i
  {
    if IsStateChangeAction(intent.action) then
      Some(StateChange(GetIntExtra(intent, EXTRA_PREVIOUS_WIFI_AP_STATE, -1), GetIntExtra(intent, EXTRA_WIFI_AP_STATE, -1)))
    else None
  }

  /** The manager whose listener is notified: HotspotManagerV26's from Oreo on, HotspotManager's before. */
  function DispatchTarget(sdk: int, legacyListener: Option<ListenerId>, v26Listener: Option<ListenerId>): Option<ListenerId> {
    if sdk >= O then v26Listener else legacyListener
  }

  /**
   * The callbacks handleStateChangeInfo fires for a new state: exactly one for
   * a code 10..14 when the target listener is set, none otherwise.
   */
  function CallbackEffects(sdk: int, legacyListener: Option<ListenerId>, v26Listener: Option<ListenerId>, next: int): (effects: seq<Effect>)
    ensures |effects| <= 1
    ensures |effects| == 1 <==> IsApState(next) && DispatchTarget(sdk, legacyListener, v26Listener).Some?
    ensures forall e :: e in effects ==>
      e.ListenerCallback? && CodeOf(e.callback) == next
      && e.listener == (if sdk >= O then v26Listener.value else legacyListener.value)
  {
    match (CallbackFor(next), DispatchTarget(sdk, legacyListener, v26Listener))
    case (Some(cb), Some(l)) => [ListenerCallback(l, cb)]
    case _ => []
  }

  /** HotspotManager's state after the receiver handles an intent: the new code, if the action matched. */
  function StateAfterReceive(state: int, intent: Intent): (s: int)
    ensures !IsStateChangeAction(intent.action) ==> s == state
    ensures IsStateChangeAction(intent.action) ==> s == GetIntExtra(intent, EXTRA_WIFI_AP_STATE, WIFI_AP_STATE_UNKNOWN)
  {
    match StateChangeOf(intent)
    case Some(change) => change.next
    case None => state
  }

  /** The callbacks fired when the receiver handles an intent. */
  function EffectsOfReceive(sdk: int, legacyListener: Option<ListenerId>, v26Listener: Option<ListenerId>, intent: Intent): (effects: seq<Effect>)
    ensures !IsStateChangeAction(intent.action) ==> effects == []
    ensures |effects| <= 1
  {
    match StateChangeOf(intent)
    case Some(change) => CallbackEffects(sdk, legacyListener, v26Listener, change.next)
    case None => []
  }

  /** The previous-state extra has no influence on the outcome. */
  lemma PreviousStateIgnored(sdk: int, legacyListener: Option<ListenerId>, v26Listener: Option<ListenerId>,
                             state: int, a: Intent, b: Intent)
    requires a.action == b.action
    requires GetIntExtra(a, EXTRA_WIFI_AP_STATE, -1) == GetIntExtra(b, EXTRA_WIFI_AP_STATE, -1)
    ensures StateAfterReceive(state, a) == StateAfterReceive(state, b)
    ensures EffectsOfReceive(sdk, legacyListener, v26Listener, a) == EffectsOfReceive(sdk, legacyListener, v26Listener, b)
  {
  }

  /** HotspotManager's state after a sequence of intents, delivered in order. */
  function StateAfterAll(state: int, intents: seq<Intent>): int
    decreases |intents|
  {
    if intents == [] then state
    else StateAfterReceive(StateAfterAll(state, intents[..|intents| - 1]), intents[|intents| - 1])
  }

  /** The last state change among a sequence of intents, if any. */
  function LastStateChange(intents: seq<Intent>): Option<StateChange>
    decreases |intents|
  {
    if intents == [] then None
    else match StateChangeOf(intents[|intents| - 1])
      case Some(change) => Some(change)
      case None => LastStateChange(intents[..|intents| - 1])
  }

  /** The last matching broadcast decides the state; other intents leave it alone. */
  lemma {:induction false} LastBroadcastWins(state: int, intents: seq<Intent>)
    ensures StateAfterAll(state, intents) == match LastStateChange(intents)
      case Some(change) => change.next
      case None => state
    decreases |intents|
  {
    if intents != [] {
      LastBroadcastWins(state, intents[..|intents| - 1]);
    }
  }

  /** The callbacks fired by a sequence of intents, in order; the listeners do not change meanwhile. */
  function EffectsOfAll(sdk: int, legacyListener: Option<ListenerId>, v26Listener: Option<ListenerId>, intents: seq<Intent>): seq<Effect>
    decreases |intents|
  {
    if intents == [] then []
    else EffectsOfAll(sdk, legacyListener, v26Listener, intents[..|intents| - 1])
         + EffectsOfReceive(sdk, legacyListener, v26Listener, intents[|intents| - 1])
  }

  /** Whether an intent is a state change announcing one of the five access-point states. */
  predicate Announces(intent: Intent) {
    StateChangeOf(intent).Some? && IsApState(StateChangeOf(intent).value.next)
  }

  /** How many intents announce an access-point state. */
  function CountAnnouncing(intents: seq<Intent>): nat
    decreases |intents|
  {
    if intents == [] then 0
    else CountAnnouncing(intents[..|intents| - 1]) + (if Announces(intents[|intents| - 1]) then 1 else 0)
  }

  /**
   * With the target listener set, each announcing intent fires exactly one
   * callback and every other intent none; without it, nothing fires.
   */
  lemma {:induction false} OneCallbackPerAnnouncement(sdk: int, legacyListener: Option<ListenerId>, v26Listener: Option<ListenerId>,
                                                       intents: seq<Intent>)
    ensures DispatchTarget(sdk, legacyListener, v26Listener).Some? ==>
      |EffectsOfAll(sdk, legacyListener, v26Listener, intents)| == CountAnnouncing(intents)
    ensures DispatchTarget(sdk, legacyListener, v26Listener).None? ==>
      EffectsOfAll(sdk, legacyListener, v26Listener, intents) == []
    decreases |intents|
  {
    if intents != [] {
      OneCallbackPerAnnouncement(sdk, legacyListener, v26Listener, intents[..|intents| - 1]);
    }
  }
}
