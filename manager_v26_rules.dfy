/**
 * The decisions of HotspotManagerV26 (Oreo and later), as values: the
 * coarse-location gate on starting a local-only hotspot, the reservation only
 * its holder may close, the delegation to HotspotHelper on older builds, and
 * configuration access, which Oreo does not offer.
 */
module ManagerV26Rules {
  import opened Wrappers
  import opened Android
  import opened HotspotHelper

  const PERMISSION_LOCATION: int := 101
  const DISABLE_NOT_OWNER: string := "Hotspot can disabled only if enabled by this app!"

  /** The effects of enableHotspot: a start request on Oreo and later, the helper's toggle before. */
  function EnableEffects(sdk: int, coarseLocationGranted: bool, methods: seq<DeclaredMethod>): (effects: seq<Effect>)
    ensures LOLLIPOP <= sdk < O ==> effects == ToggleEffects(methods, true)
    ensures sdk < LOLLIPOP ==> effects == []
    ensures StartLocalOnlyHotspot in effects <==> sdk >= O && coarseLocationGranted
    ensures RequestPermissions(PERMISSION_ACCESS_COARSE_LOCATION, PERMISSION_LOCATION) in effects <==> sdk >= O && !coarseLocationGranted
    ensures sdk >= O ==> |effects| == 1
  {
    if LOLLIPOP <= sdk < O then
      ToggleEffects(methods, true)
    else if sdk >= O then
      if coarseLocationGranted then [StartLocalOnlyHotspot]
      else [RequestPermissions(PERMISSION_ACCESS_COARSE_LOCATION, PERMISSION_LOCATION)]
    else
      []
  }

  /** Before Oreo the location permission plays no part. */
  lemma EnableIgnoresLocationBeforeOreo(sdk: int, methods: seq<DeclaredMethod>)
    requires sdk < O
    ensures EnableEffects(sdk, true, methods) == EnableEffects(sdk, false, methods)
  {
  }

  /** The reservation held and the effects after one operation of HotspotManagerV26. */
  datatype StepOutcome = StepOutcome(reservation: Option<Reservation>, effects: seq<Effect>)

  /**
   * disableHotspot: on Oreo and later the held reservation is closed exactly
   * once and dropped, and without one the not-owner message is shown; before
   * Oreo the helper toggles the hotspot off and the reservation is untouched.
   */
  function DisableStep(sdk: int, reservation: Option<Reservation>, methods: seq<DeclaredMethod>): (r: StepOutcome)
    ensures sdk >= O ==> r.reservation == None
    ensures sdk < O ==> r.reservation == reservation
    ensures sdk >= O && reservation.Some? ==> r.effects == [CloseReservation(reservation.value)]
    ensures sdk >= O && reservation.None? ==> r.effects == [Toast(DISABLE_NOT_OWNER)]
    ensures LOLLIPOP <= sdk < O ==> r.effects == ToggleEffects(methods, false)
    ensures sdk < LOLLIPOP ==> r.effects == []
    ensures forall e :: e in r.effects && e.CloseReservation? ==> reservation == Some(e.reservation)
  {
    if LOLLIPOP <= sdk < O then
      StepOutcome(reservation, ToggleEffects(methods, false))
    else if sdk >= O then
      match reservation
      case Some(held) => StepOutcome(None, [CloseReservation(held)])
      case None => StepOutcome(None, [Toast(DISABLE_NOT_OWNER)])
    else
      StepOutcome(reservation, [])
  }

  /** A second disable in a row on Oreo and later always takes the not-owner branch. */
  lemma SecondDisableIsNotOwner(sdk: int, reservation: Option<Reservation>, methods: seq<DeclaredMethod>)
    requires sdk >= O
    ensures DisableStep(sdk, DisableStep(sdk, reservation, methods).reservation, methods).effects == [Toast(DISABLE_NOT_OWNER)]
  {
  }

  /** getHotspotConfiguration: only the legacy-toggle builds can read the stored configuration. */
  function ConfigurationOf(sdk: int, methods: seq<DeclaredMethod>): (config: Option<ApConfig>)
    ensures !(LOLLIPOP <= sdk < O) ==> config == None
    ensures LOLLIPOP <= sdk < O ==> config == ApConfigOf(methods)
  {
    if LOLLIPOP <= sdk < O then ApConfigOf(methods) else None
  }

  /** What can happen to HotspotManagerV26's reservation: an enable, a disable, or the platform's onStarted. */
  datatype Operation = Enable(coarseLocationGranted: bool) | Disable | Started(reservation: Reservation)

  /** The reservation held and the effects of one operation. */
  function Step(sdk: int, methods: seq<DeclaredMethod>, reservation: Option<Reservation>, op: Operation): StepOutcome {
    match op
    case Enable(granted) => StepOutcome(reservation, EnableEffects(sdk, granted, methods))
    case Disable => DisableStep(sdk, reservation, methods)
    case Started(r) => StepOutcome(Some(r), [])
  }

  /** The reservation held and all effects after a sequence of operations. */
  function Run(sdk: int, methods: seq<DeclaredMethod>, reservation: Option<Reservation>, ops: seq<Operation>): StepOutcome
    decreases |ops|
  {
    if ops == [] then StepOutcome(reservation, [])
    else
      var first := Step(sdk, methods, reservation, ops[0]);
      var rest := Run(sdk, methods, first.reservation, ops[1..]);
      StepOutcome(rest.reservation, first.effects + rest.effects)
  }

  /**
   * Only the holder closes: every reservation the app closes is the one it
   * held at the start or one the platform delivered to it through onStarted.
   */
  lemma {:induction false} ClosesOnlyDelivered(sdk: int, methods: seq<DeclaredMethod>, reservation: Option<Reservation>, ops: seq<Operation>)
    ensures forall e :: e in Run(sdk, methods, reservation, ops).effects && e.CloseReservation? ==>
      reservation == Some(e.reservation) || Started(e.reservation) in ops
    decreases |ops|
  {
    if ops != [] {
      var first := Step(sdk, methods, reservation, ops[0]);
      ClosesOnlyDelivered(sdk, methods, first.reservation, ops[1..]);
      assert forall x :: x in ops[1..] ==> x in ops;
      assert first.reservation == reservation || first.reservation == None || ops[0] == Started(first.reservation.value);
    }
  }

  /** n disables in a row. */
  function DisableTimes(n: nat): seq<Operation> {
    if n == 0 then [] else [Disable] + DisableTimes(n - 1)
  }

  /** How many close calls a list of effects holds. */
  function CountCloses(effects: seq<Effect>): nat {
    if effects == [] then 0
    else (if effects[0].CloseReservation? then 1 else 0) + CountCloses(effects[1..])
  }

  lemma {:induction false} CountClosesAppend(a: seq<Effect>, b: seq<Effect>)
    ensures CountCloses(a + b) == CountCloses(a) + CountCloses(b)
    decreases |a|
  {
    if a != [] {
      assert (a + b)[1..] == a[1..] + b;
      CountClosesAppend(a[1..], b);
    } else {
      assert a + b == b;
    }
  }

  /** Repeated disables on Oreo and later close a held reservation once in total, and nothing otherwise. */
  lemma {:induction false} RepeatedDisableClosesOnce(sdk: int, methods: seq<DeclaredMethod>, reservation: Option<Reservation>, n: nat)
    requires sdk >= O && n >= 1
    ensures CountCloses(Run(sdk, methods, reservation, DisableTimes(n)).effects) == (if reservation.Some? then 1 else 0)
    ensures Run(sdk, methods, reservation, DisableTimes(n)).reservation == None
    decreases n
  {
    var ops := DisableTimes(n);
    assert ops[0] == Disable && ops[1..] == DisableTimes(n - 1);
    var first := Step(sdk, methods, reservation, ops[0]);
    var rest := Run(sdk, methods, first.reservation, ops[1..]);
    CountClosesAppend(first.effects, rest.effects);
    if n > 1 {
      RepeatedDisableClosesOnce(sdk, methods, None, n - 1);
    }
  }
}
