/** End-to-end scenarios of the managers and the receiver on concrete devices. */
module Scenarios {
  import opened Wrappers
  import opened HotspotStates
  import opened Android
  import opened HotspotHelper
  import opened ReceiverRules
  import opened ManagerV26Rules
  import opened Hotspot

  /**
   * A Nougat device whose hidden getter reports framework value 1: the legacy
   * manager boots in DISABLED, an enable issues one toggle with the stored
   * configuration, and a broadcast of ENABLED updates the state and fires
   * onEnabled once on the registered listener.
   */
  method LegacyEnableScenario()
  {
    var config := ApConfig("hotspot", "secret");
    var methods := [
      DeclaredMethod(GET_WIFI_AP_STATE, Returned(IntValue(1))),
      DeclaredMethod(SET_WIFI_AP_ENABLED, Returned(VoidValue)),
      DeclaredMethod(GET_WIFI_AP_CONFIGURATION, Returned(ConfigValue(config)))
    ];
    assert FirstMatch(methods, GET_WIFI_AP_STATE) == Some(0);
    assert !NameMatches(methods[0], SET_WIFI_AP_ENABLED) && NameMatches(methods[1], SET_WIFI_AP_ENABLED);
    assert FirstMatch(methods, SET_WIFI_AP_ENABLED) == Some(1);
    assert !NameMatches(methods[0], GET_WIFI_AP_CONFIGURATION) && !NameMatches(methods[1], GET_WIFI_AP_CONFIGURATION);
    assert NameMatches(methods[2], GET_WIFI_AP_CONFIGURATION);
    assert FirstMatch(methods, GET_WIFI_AP_CONFIGURATION) == Some(2);
    var ctx := new Platform(24, methods, true, false);
    var p := new Process();

    var manager := HotspotManager.GetInstance(p, ctx);
    assert manager.state == WIFI_AP_STATE_DISABLED;

    manager.SetHotspotStateListener(ctx, 7);
    var registered := manager.receiver;
    manager.EnableHotspot(ctx);
    assert ctx.log == [RegisterReceiver(registered), SetWifiApEnabled(Some(config), true)];
    assert manager.state == WIFI_AP_STATE_DISABLED;

    var receiver := new HotspotReceiver();
    var enabled := Intent(Some(ACTION_HOTSPOT_STATE_CHANGE),
                          map[EXTRA_PREVIOUS_WIFI_AP_STATE := IntExtra(12), EXTRA_WIFI_AP_STATE := IntExtra(13)]);
    receiver.OnReceive(p, ctx, enabled);
    assert manager.state == WIFI_AP_STATE_ENABLED;
    assert ctx.log == [RegisterReceiver(registered), SetWifiApEnabled(Some(config), true), ListenerCallback(7, OnEnabled)];

    manager.RemoveHotspotStateListener(ctx);
    manager.RemoveHotspotStateListener(ctx);
    assert ctx.log == [RegisterReceiver(registered), SetWifiApEnabled(Some(config), true), ListenerCallback(7, OnEnabled),
                       UnregisterReceiver(registered)];
  }

  /**
   * An Oreo device: with location granted an enable asks for a local-only
   * hotspot, the delivered reservation is closed by the first disable, and the
   * second disable only shows the not-owner message. A broadcast writes the
   * legacy manager's state and notifies the Oreo manager's listener.
   */
  method ReservationScenario()
  {
    var ctx := new Platform(26, [], true, true);
    var p := new Process();
    var manager := HotspotManagerV26.GetInstance(p, ctx);
    assert manager.state == WIFI_AP_STATE_UNKNOWN;

    manager.EnableHotspot(ctx);
    manager.OnStarted(Reservation(1));
    manager.DisableHotspot(ctx);
    manager.DisableHotspot(ctx);
    assert ctx.log == [StartLocalOnlyHotspot, CloseReservation(Reservation(1)), Toast(DISABLE_NOT_OWNER)];
    assert manager.reservation == None;

    manager.SetHotspotStateListener(ctx, 3);
    var receiver := new HotspotReceiver();
    var failed := Intent(Some("ANDROID.NET.WIFI.WIFI_AP_STATE_CHANGED"), map[EXTRA_WIFI_AP_STATE := IntExtra(14)]);
    UpperCaseActionMatches();
    receiver.OnReceive(p, ctx, failed);
    assert p.managerInstance != null && p.managerInstance.state == WIFI_AP_STATE_FAILED;
    assert manager.state == WIFI_AP_STATE_UNKNOWN;
    assert ctx.log[|ctx.log| - 1] == ListenerCallback(3, OnFailed);
  }

  /**
   * Broadcasts arriving before the app touched either manager: on Nougat they
   * create HotspotManager and fire nothing, as no listener is set; on Oreo a
   * code 10..14 also creates HotspotManagerV26, which holds no reservation, so
   * a disable only shows the not-owner message.
   */
  method BroadcastBeforeUseScenario()
  {
    var enabled := Intent(Some(ACTION_HOTSPOT_STATE_CHANGE), map[EXTRA_WIFI_AP_STATE := IntExtra(13)]);
    var disabled := Intent(Some(ACTION_HOTSPOT_STATE_CHANGE), map[EXTRA_WIFI_AP_STATE := IntExtra(11)]);
    var receiver := new HotspotReceiver();

    var nougat := new Platform(24, [], true, false);
    var p := new Process();
    receiver.OnReceive(p, nougat, enabled);
    receiver.OnReceive(p, nougat, disabled);
    assert nougat.log == [];
    assert p.managerInstance != null && p.managerInstance.state == WIFI_AP_STATE_DISABLED;
    assert p.managerV26Instance == null;

    var oreo := new Platform(26, [], true, true);
    var q := new Process();
    receiver.OnReceive(q, oreo, enabled);
    var manager := q.managerV26Instance;
    assert manager != null && manager.reservation == None;
    manager.DisableHotspot(oreo);
    assert oreo.log == [Toast(DISABLE_NOT_OWNER)];
  }

  /** The action filter ignores case. */
  lemma UpperCaseActionMatches()
    ensures EqualsIgnoreCase(ACTION_HOTSPOT_STATE_CHANGE, "ANDROID.NET.WIFI.WIFI_AP_STATE_CHANGED")
  {
  }
}
