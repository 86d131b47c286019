/**
 * The decisions of the legacy HotspotManager (Lollipop to Nougat), as values:
 * the WRITE_SETTINGS gate and the version-gated toggle through HotspotHelper.
 */
module ManagerRules {
  import opened Android
  import opened HotspotHelper

  const UNABLE_TO_MODIFY_SETTINGS: string := "Unable to modify system settings"

  /** checkSelfPermission: granted below Marshmallow, otherwise whatever Settings.System.canWrite answers. */
  predicate HasWritePermission(sdk: int, canWriteSettings: bool) {
    sdk < M || canWriteSettings
  }

  /** Whether the legacy toggle path applies on this build (Lollipop up to, not including, Oreo). */
  predicate LegacyToggleBuild(sdk: int) {
    LOLLIPOP <= sdk < O
  }

  /**
   * The effects of enableHotspot (enabled) or disableHotspot (not enabled).
   * The toggle is issued only with permission on a legacy-toggle build; a
   * missing permission shows the settings dialog; the toast branch is never
   * reached, because every build below Marshmallow already has permission.
   */
  function ToggleRequestEffects(sdk: int, canWriteSettings: bool, methods: seq<DeclaredMethod>, enabled: bool): (effects: seq<Effect>)
    ensures HasWritePermission(sdk, canWriteSettings) && LegacyToggleBuild(sdk) ==> effects == ToggleEffects(methods, enabled)
    ensures HasWritePermission(sdk, canWriteSettings) && !LegacyToggleBuild(sdk) ==> effects == []
    ensures !HasWritePermission(sdk, canWriteSettings) ==> effects == [WriteSettingsDialog]
    ensures SetWifiApEnabled(ApConfigOf(methods), enabled) in effects <==>
      HasWritePermission(sdk, canWriteSettings) && LegacyToggleBuild(sdk) && Invokes(methods, SET_WIFI_AP_ENABLED)
    ensures Toast(UNABLE_TO_MODIFY_SETTINGS) !in effects
  {
    if HasWritePermission(sdk, canWriteSettings) then
      if LegacyToggleBuild(sdk) then ToggleEffects(methods, enabled) else []
    else if sdk >= M then
      [WriteSettingsDialog]
    else
      [Toast(UNABLE_TO_MODIFY_SETTINGS)]
  }

  /** Below Marshmallow the WRITE_SETTINGS answer is never consulted. */
  lemma PermissionIgnoredBelowMarshmallow(sdk: int, methods: seq<DeclaredMethod>, enabled: bool)
    requires sdk < M
    ensures ToggleRequestEffects(sdk, true, methods, enabled) == ToggleRequestEffects(sdk, false, methods, enabled)
  {
  }

  /** Enable and disable differ only in the flag passed to the toggle. */
  lemma EnableDisableSymmetric(sdk: int, canWriteSettings: bool, methods: seq<DeclaredMethod>)
    ensures |ToggleRequestEffects(sdk, canWriteSettings, methods, true)| == |ToggleRequestEffects(sdk, canWriteSettings, methods, false)|
    ensures forall i :: 0 <= i < |ToggleRequestEffects(sdk, canWriteSettings, methods, true)| ==>
      var a, b := ToggleRequestEffects(sdk, canWriteSettings, methods, true)[i], ToggleRequestEffects(sdk, canWriteSettings, methods, false)[i];
      (a.SetWifiApEnabled? && b == a.(enabled := false)) || (!a.SetWifiApEnabled? && a == b)
  {
  }
}
