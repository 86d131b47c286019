/**
 * The stateful part: the two manager singletons, the broadcast receiver that
 * feeds them, and the process-wide statics that hold the singletons.
 *
 * The three classes live in one module because they refer to each other the
 * way the Java classes do: each manager creates a HotspotReceiver, and the
 * receiver looks up both managers' singletons.
 */
module Hotspot {
  import opened Wrappers
  import opened HotspotStates
  import opened Android
  import HotspotHelper
  import opened ReceiverRules
  import opened ManagerRules
  import opened ManagerV26Rules

  /** The static fields of the app process: the two lazily created singletons. */
  class Process {
    var managerInstance: HotspotManager?
    var managerV26Instance: HotspotManagerV26?

    constructor ()
      ensures managerInstance == null && managerV26Instance == null
    {
      managerInstance := null;
      managerV26Instance := null;
    }

    /** The listener of HotspotManager's singleton, if it exists and has one. */
    ghost function LegacyListener(): Option<ListenerId>
      reads this, managerInstance
    {
      if managerInstance == null then None else managerInstance.listener
    }

    /** The listener of HotspotManagerV26's singleton, if it exists and has one. */
    ghost function V26Listener(): Option<ListenerId>
      reads this, managerV26Instance
    {
      if managerV26Instance == null then None else managerV26Instance.listener
    }
  }

  /** The broadcast receiver for WIFI_AP_STATE_CHANGED; it holds no state of its own. */
  class HotspotReceiver {
    constructor ()
    {
    }

    /**
     * onReceive: a matching action hands the new state to handleStateChangeInfo;
     * any other intent changes nothing and fires nothing.
     */
    method OnReceive(p: Process, ctx: Platform, intent: Intent)
      modifies p, p.managerInstance, ctx`log
      ensures StateChangeOf(intent).None? ==>
        p.managerInstance == old(p.managerInstance) && p.managerV26Instance == old(p.managerV26Instance)
        && ctx.log == old(ctx.log)
        && (p.managerInstance != null ==> p.managerInstance.state == old(p.managerInstance.state))
      ensures StateChangeOf(intent).Some? ==>
        p.managerInstance != null && p.managerInstance.state == StateChangeOf(intent).value.next
        && ctx.log == old(ctx.log) + CallbackEffects(ctx.sdk, old(p.LegacyListener()), old(p.V26Listener()), StateChangeOf(intent).value.next)
      ensures old(p.managerInstance) != null ==>
        (p.managerInstance == old(p.managerInstance)
         && p.managerInstance.state == StateAfterReceive(old(p.managerInstance.state), intent))
      ensures old(p.managerInstance) != null ==>
        (p.managerInstance.listener == old(p.managerInstance.listener)
         && p.managerInstance.receiver == old(p.managerInstance.receiver)
         && p.managerInstance.hasWifiManager == old(p.managerInstance.hasWifiManager))
      ensures old(p.managerV26Instance) != null ==> p.managerV26Instance == old(p.managerV26Instance)
      ensures old(p.managerInstance) == null && p.managerInstance != null ==>
        (fresh(p.managerInstance)
         && p.managerInstance.listener == None && p.managerInstance.receiver == null && !p.managerInstance.hasWifiManager)
      ensures old(p.managerV26Instance) == null ==>
        if StateChangeOf(intent).Some? && ctx.sdk >= O && IsApState(StateChangeOf(intent).value.next)
        then p.managerV26Instance != null
        else p.managerV26Instance == null
      ensures old(p.managerV26Instance) == null && p.managerV26Instance != null ==>
        (fresh(p.managerV26Instance)
         && p.managerV26Instance.state == HotspotHelper.Normalize(HotspotHelper.RawApState(ctx.wifiMethods))
         && p.managerV26Instance.listener == None && p.managerV26Instance.receiver == null
         && p.managerV26Instance.reservation == None && !p.managerV26Instance.hasWifiManager)
    {
      if IsStateChangeAction(intent.action) {
        var previous := GetIntExtra(intent, EXTRA_PREVIOUS_WIFI_AP_STATE, -1);
        var next := GetIntExtra(intent, EXTRA_WIFI_AP_STATE, -1);
        HandleStateChangeInfo(p, ctx, previous, next);
      }
    }

    /**
     * handleStateChangeInfo: HotspotManager's state becomes nextState whatever
     * it is, then the one callback for a code 10..14 goes to HotspotManagerV26's
     * listener from Oreo on and to HotspotManager's before; previousState is
     * not used. HotspotManagerV26's own state is never written.
     */
    method HandleStateChangeInfo(p: Process, ctx: Platform, previousState: int, nextState: int)
      modifies p, p.managerInstance, ctx`log
      ensures p.managerInstance != null && p.managerInstance.state == nextState
      ensures ctx.log == old(ctx.log) + CallbackEffects(ctx.sdk, old(p.LegacyListener()), old(p.V26Listener()), nextState)
      ensures old(p.managerInstance) != null ==>
        (p.managerInstance == old(p.managerInstance)
         && p.managerInstance.listener == old(p.managerInstance.listener)
         && p.managerInstance.receiver == old(p.managerInstance.receiver)
         && p.managerInstance.hasWifiManager == old(p.managerInstance.hasWifiManager))
      ensures old(p.managerInstance) == null ==>
        (fresh(p.managerInstance)
         && p.managerInstance.listener == None && p.managerInstance.receiver == null && !p.managerInstance.hasWifiManager)
      ensures old(p.managerV26Instance) != null ==>
        (p.managerV26Instance == old(p.managerV26Instance)
         && p.managerV26Instance.state == old(p.managerV26Instance.state))
      ensures old(p.managerV26Instance) == null ==>
        if ctx.sdk >= O && IsApState(nextState)
        then
          (p.managerV26Instance != null && fresh(p.managerV26Instance)
           && p.managerV26Instance.state == HotspotHelper.Normalize(HotspotHelper.RawApState(ctx.wifiMethods))
           && p.managerV26Instance.listener == None && p.managerV26Instance.receiver == null
           && p.managerV26Instance.reservation == None && !p.managerV26Instance.hasWifiManager)
        else p.managerV26Instance == null
    {
      var manager := HotspotManager.GetInstance(p, ctx);
      manager.SetHotspotState(nextState);
      var callback := CallbackFor(nextState);
      if callback.Some? {
        if ctx.sdk >= O {
          var managerV26 := HotspotManagerV26.GetInstance(p, ctx);
          var listener := managerV26.GetHotspotStateListener();
          if listener.Some? {
            ctx.log := ctx.log + [ListenerCallback(listener.value, callback.value)];
          }
        } else {
          var legacy := HotspotManager.GetInstance(p, ctx);
          var listener := legacy.GetHotspotStateListener();
          if listener.Some? {
            ctx.log := ctx.log + [ListenerCallback(listener.value, callback.value)];
          }
        }
      }
    }
  }

  /** HotspotManager: the legacy manager for Lollipop to Nougat. */
  class HotspotManager {
    var state: int
    var listener: Option<ListenerId>
    var receiver: HotspotReceiver?
    /** Whether mWifiManager has been fetched from the context. */
    var hasWifiManager: bool

    constructor ()
      ensures state == WIFI_AP_STATE_UNKNOWN && listener == None && receiver == null && !hasWifiManager
    {
      state := WIFI_AP_STATE_UNKNOWN;
      listener := None;
      receiver := null;
      hasWifiManager := false;
    }

    /**
     * getInstance: the first call creates the singleton and reads the initial
     * state through HotspotHelper; later calls return it without reading again.
     */
    static method GetInstance(p: Process, ctx: Platform) returns (m: HotspotManager)
      modifies p`managerInstance
      ensures p.managerInstance == m
      ensures old(p.managerInstance) != null ==> m == old(p.managerInstance)
      ensures old(p.managerInstance) == null ==>
        (fresh(m)
         && m.state == HotspotHelper.Normalize(HotspotHelper.RawApState(ctx.wifiMethods))
         && m.listener == None && m.receiver == null && !m.hasWifiManager)
    {
      if p.managerInstance == null {
        var created := new HotspotManager();
        var initial := HotspotHelper.GetHotspotState(ctx.wifiMethods);
        created.SetHotspotState(initial);
        p.managerInstance := created;
      }
      m := p.managerInstance;
    }

    /** getHotspotState: the state last stored by the bootstrap or a broadcast. */
    function GetHotspotState(): (s: int)
      reads this
      ensures s == state
    {
      state
    }

    /** setHotspotState: the state read back afterwards is the one given, and nothing else changes. */
    method SetHotspotState(s: int)
      modifies this`state
      ensures GetHotspotState() == s
    {
      state := s;
    }

    /** getHotspotStateListener: the listener last set, or none after a removal. */
    function GetHotspotStateListener(): (l: Option<ListenerId>)
      reads this
      ensures l == listener
    {
      listener
    }

    /**
     * setHotspotStateListener: stores the listener, creates a receiver only if
     * none exists, and registers it on every call.
     */
    method SetHotspotStateListener(ctx: Platform, l: ListenerId)
      modifies this`listener, this`receiver, ctx`log
      ensures listener == Some(l)
      ensures old(receiver) != null ==> receiver == old(receiver)
      ensures old(receiver) == null ==> receiver != null && fresh(receiver)
      ensures receiver != null && ctx.log == old(ctx.log) + [RegisterReceiver(receiver)]
    {
      listener := Some(l);
      RegisterInternal(ctx);
    }

    /**
     * removeHotspotStateListener: clears the listener and, only if a receiver
     * exists, unregisters and drops it; a second removal unregisters nothing.
     */
    method RemoveHotspotStateListener(ctx: Platform)
      modifies this`listener, this`receiver, ctx`log
      ensures listener == None && receiver == null
      ensures ctx.log == old(ctx.log) + (if old(receiver) != null then [UnregisterReceiver(old(receiver))] else [])
    {
      listener := None;
      UnregisterInternal(ctx);
    }

    /** registerInternal. */
    method RegisterInternal(ctx: Platform)
      modifies this`receiver, ctx`log
      ensures old(receiver) != null ==> receiver == old(receiver)
      ensures old(receiver) == null ==> receiver != null && fresh(receiver)
      ensures receiver != null && ctx.log == old(ctx.log) + [RegisterReceiver(receiver)]
    {
      if receiver == null {
        receiver := new HotspotReceiver();
      }
      ctx.log := ctx.log + [RegisterReceiver(receiver)];
    }

    /** unregisterInternal. */
    method UnregisterInternal(ctx: Platform)
      modifies this`receiver, ctx`log
      ensures receiver == null
      ensures ctx.log == old(ctx.log) + (if old(receiver) != null then [UnregisterReceiver(old(receiver))] else [])
    {
      if receiver != null {
        ctx.log := ctx.log + [UnregisterReceiver(receiver)];
        receiver := null;
      }
    }

    /**
     * enableHotspot: with WRITE_SETTINGS, toggles on through HotspotHelper on
     * Lollipop to Nougat only; without it, shows the settings dialog. The
     * state field is left alone: only a broadcast changes it.
     */
    method EnableHotspot(ctx: Platform)
      modifies this`hasWifiManager, ctx`log
      ensures ctx.log == old(ctx.log) + ToggleRequestEffects(ctx.sdk, ctx.canWriteSettings, ctx.wifiMethods, true)
      ensures hasWifiManager == (old(hasWifiManager) || HasWritePermission(ctx.sdk, ctx.canWriteSettings))
      ensures state == old(state)
    {
      ToggleRequest(ctx, true);
    }

    /** disableHotspot: as enableHotspot, toggling off. */
    method DisableHotspot(ctx: Platform)
      modifies this`hasWifiManager, ctx`log
      ensures ctx.log == old(ctx.log) + ToggleRequestEffects(ctx.sdk, ctx.canWriteSettings, ctx.wifiMethods, false)
      ensures hasWifiManager == (old(hasWifiManager) || HasWritePermission(ctx.sdk, ctx.canWriteSettings))
      ensures state == old(state)
    {
      ToggleRequest(ctx, false);
    }

    /** The body enableHotspot and disableHotspot share. */
    method ToggleRequest(ctx: Platform, enabled: bool)
      modifies this`hasWifiManager, ctx`log
      ensures ctx.log == old(ctx.log) + ToggleRequestEffects(ctx.sdk, ctx.canWriteSettings, ctx.wifiMethods, enabled)
      ensures hasWifiManager == (old(hasWifiManager) || HasWritePermission(ctx.sdk, ctx.canWriteSettings))
    {
      var permitted := CheckSelfPermission(ctx);
      if permitted {
        if !hasWifiManager {
          hasWifiManager := true;
        }
        if ctx.sdk >= LOLLIPOP && ctx.sdk < O {
          if enabled {
            HotspotHelper.EnableHotspot(ctx);
          } else {
            HotspotHelper.DisableHotspot(ctx);
          }
        }
      } else {
        if ctx.sdk >= M {
          ctx.log := ctx.log + [WriteSettingsDialog];
        } else {
          // The "Unable to modify system settings" toast: below Marshmallow the
          // permission check always succeeds, so this branch is never taken.
          assert false;
        }
      }
    }

    /** checkSelfPermission: asks the platform on every call, so a revoked grant is noticed. */
    method CheckSelfPermission(ctx: Platform) returns (permitted: bool)
      ensures permitted == HasWritePermission(ctx.sdk, ctx.canWriteSettings)
      ensures ctx.sdk < M ==> permitted
    {
      permitted := ctx.sdk < M || ctx.canWriteSettings;
    }
  }

  /** HotspotManagerV26: the manager for Oreo and later. */
  class HotspotManagerV26 {
    var state: int
    var listener: Option<ListenerId>
    var receiver: HotspotReceiver?
    var hasWifiManager: bool
    /** mHotSpotReservation: the local-only hotspot reservation this app holds, if any. */
    var reservation: Option<Reservation>

    constructor ()
      ensures state == WIFI_AP_STATE_UNKNOWN && listener == None && receiver == null && !hasWifiManager
      ensures reservation == None
    {
      state := WIFI_AP_STATE_UNKNOWN;
      listener := None;
      receiver := null;
      hasWifiManager := false;
      reservation := None;
    }

    /** getInstance: creates the singleton and reads the initial state on the first call only. */
    static method GetInstance(p: Process, ctx: Platform) returns (m: HotspotManagerV26)
      modifies p`managerV26Instance
      ensures p.managerV26Instance == m
      ensures old(p.managerV26Instance) != null ==> m == old(p.managerV26Instance)
      ensures old(p.managerV26Instance) == null ==>
        (fresh(m)
         && m.state == HotspotHelper.Normalize(HotspotHelper.RawApState(ctx.wifiMethods))
         && m.listener == None && m.receiver == null && !m.hasWifiManager && m.reservation == None)
    {
      if p.managerV26Instance == null {
        var created := new HotspotManagerV26();
        var initial := HotspotHelper.GetHotspotState(ctx.wifiMethods);
        created.SetHotspotState(initial);
        p.managerV26Instance := created;
      }
      m := p.managerV26Instance;
    }

    /** The local-only hotspot callback's onStarted: keeps the delivered reservation, replacing any held one. */
    method OnStarted(r: Reservation)
      modifies this`reservation
      ensures reservation == Some(r)
    {
      reservation := Some(r);
    }

    /** getHotspotState: the state last stored by the bootstrap or a broadcast. */
    function GetHotspotState(): (s: int)
      reads this
      ensures s == state
    {
      state
    }

    /** setHotspotState. */
    method SetHotspotState(s: int)
      modifies this`state
      ensures GetHotspotState() == s
    {
      state := s;
    }

    /** getHotspotStateListener: the listener last set, or none after a removal. */
    function GetHotspotStateListener(): (l: Option<ListenerId>)
      reads this
      ensures l == listener
    {
      listener
    }

    /** setHotspotStateListener: the same life cycle as HotspotManager's. */
    method SetHotspotStateListener(ctx: Platform, l: ListenerId)
      modifies this`listener, this`receiver, ctx`log
      ensures listener == Some(l)
      ensures old(receiver) != null ==> receiver == old(receiver)
      ensures old(receiver) == null ==> receiver != null && fresh(receiver)
      ensures receiver != null && ctx.log == old(ctx.log) + [RegisterReceiver(receiver)]
    {
      listener := Some(l);
      RegisterInternal(ctx);
    }

    /** removeHotspotStateListener: the same life cycle as HotspotManager's. */
    method RemoveHotspotStateListener(ctx: Platform)
      modifies this`listener, this`receiver, ctx`log
      ensures listener == None && receiver == null
      ensures ctx.log == old(ctx.log) + (if old(receiver) != null then [UnregisterReceiver(old(receiver))] else [])
    {
      listener := None;
      UnregisterInternal(ctx);
    }

    /** registerInternal: creates the receiver only if absent and registers it. */
    method RegisterInternal(ctx: Platform)
      modifies this`receiver, ctx`log
      ensures old(receiver) != null ==> receiver == old(receiver)
      ensures old(receiver) == null ==> receiver != null && fresh(receiver)
      ensures receiver != null && ctx.log == old(ctx.log) + [RegisterReceiver(receiver)]
    {
      if receiver == null {
        receiver := new HotspotReceiver();
      }
      ctx.log := ctx.log + [RegisterReceiver(receiver)];
    }

    /** unregisterInternal: unregisters and drops the receiver only if present. */
    method UnregisterInternal(ctx: Platform)
      modifies this`receiver, ctx`log
      ensures receiver == null
      ensures ctx.log == old(ctx.log) + (if old(receiver) != null then [UnregisterReceiver(old(receiver))] else [])
    {
      if receiver != null {
        ctx.log := ctx.log + [UnregisterReceiver(receiver)];
        receiver := null;
      }
    }

    /**
     * enableHotspot: on Oreo and later starts a local-only hotspot when coarse
     * location is granted and requests it (code 101) otherwise; on Lollipop to
     * Nougat toggles through HotspotHelper without any permission check.
     */
    method EnableHotspot(ctx: Platform)
      modifies this`hasWifiManager, ctx`log
      ensures ctx.log == old(ctx.log) + EnableEffects(ctx.sdk, ctx.coarseLocationGranted, ctx.wifiMethods)
      ensures hasWifiManager
      ensures state == old(state) && reservation == old(reservation)
    {
      if !hasWifiManager {
        hasWifiManager := true;
      }
      if ctx.sdk >= LOLLIPOP && ctx.sdk < O {
        HotspotHelper.EnableHotspot(ctx);
      } else if ctx.sdk >= O {
        if ctx.coarseLocationGranted {
          ctx.log := ctx.log + [StartLocalOnlyHotspot];
        } else {
          ctx.log := ctx.log + [RequestPermissions(PERMISSION_ACCESS_COARSE_LOCATION, PERMISSION_LOCATION)];
        }
      }
    }

    /**
     * disableHotspot: on Oreo and later closes and drops the held reservation,
     * or shows the not-owner message without one; on Lollipop to Nougat
     * toggles off through HotspotHelper. No permission is checked.
     */
    method DisableHotspot(ctx: Platform)
      modifies this`hasWifiManager, this`reservation, ctx`log
      ensures reservation == DisableStep(ctx.sdk, old(reservation), ctx.wifiMethods).reservation
      ensures ctx.log == old(ctx.log) + DisableStep(ctx.sdk, old(reservation), ctx.wifiMethods).effects
      ensures hasWifiManager
      ensures state == old(state)
    {
      if !hasWifiManager {
        hasWifiManager := true;
      }
      if ctx.sdk >= LOLLIPOP && ctx.sdk < O {
        HotspotHelper.DisableHotspot(ctx);
      } else if ctx.sdk >= O {
        if reservation.Some? {
          ctx.log := ctx.log + [CloseReservation(reservation.value)];
          reservation := None;
        } else {
          ctx.log := ctx.log + [Toast(DISABLE_NOT_OWNER)];
        }
      }
    }

    /** getHotspotConfiguration: the stored configuration on Lollipop to Nougat, null otherwise. */
    method GetHotspotConfiguration(ctx: Platform) returns (config: Option<ApConfig>)
      modifies this`hasWifiManager
      ensures config == ConfigurationOf(ctx.sdk, ctx.wifiMethods)
      ensures hasWifiManager
    {
      if !hasWifiManager {
        hasWifiManager := true;
      }
      if ctx.sdk >= LOLLIPOP && ctx.sdk < O {
        config := HotspotHelper.GetHotspotConfiguration(ctx.wifiMethods);
        return;
      }
      return None;
    }

    /** setWifiConfiguration: has no effect at all on this path. */
    method SetWifiConfiguration(ctx: Platform, config: Option<ApConfig>)
      ensures unchanged(this) && unchanged(ctx)
    {
    }
  }
}
