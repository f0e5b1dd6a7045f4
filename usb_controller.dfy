/**
 * The game controller's event handling: buttons, stick and trigger axes and
 * the D-pad, turned into the application's camera signals. The polling of
 * pygame and the hotplug timer are left to the caller: each handler is called
 * with the event it handles, and the signals it would emit are appended to a
 * log. Axis values are exact reals.
 */
module UsbController {
  import opened Wrappers

  /** `MovementDirection`. */
  datatype Direction = Stop | Up | Down | Left | Right | UpLeft | UpRight | DownLeft | DownRight

  /** The signals the controller emits. */
  datatype Signal =
    | Connected(name: string)
    | Disconnected
    | ButtonPressed(button: int)
    | ButtonReleased(button: int)
    | AxisMoved(axis: int, value: real)
    | Movement(direction: Direction, speed: real)
    | ZoomIn(speed: real)
    | ZoomOut(speed: real)
    | ZoomStop
    | StopMovement
    | ReconnectRequested
    | PrevCamera
    | NextCamera
    | BrightnessIncrease
    | BrightnessDecrease

  /** The USB controller settings the handlers read from the configuration. */
  datatype Settings = Settings(
    brightnessEnabled: bool,
    brightnessIncreaseButton: int,
    brightnessDecreaseButton: int,
    joystickMode: string,
    zoomSpeed: real,
    dpadSpeed: real,
    joystickSpeed: real,
    invertVertical: bool)

  /** The values the handlers use when the controller has no configuration at all. */
  function NoConfig(): (s: Settings)
    ensures !s.brightnessEnabled && s.brightnessIncreaseButton == 3 && s.brightnessDecreaseButton == 0
    ensures s.joystickMode == "single" && !s.invertVertical
  {
    Settings(false, 3, 0, "single", 0.7, 0.7, 1.0, false)
  }

  function Effective(config: Option<Settings>): Settings
  {
    if config.Some? then config.value else NoConfig()
  }

  const DEAD_ZONE: real := 0.15
  const DIAGONAL_THRESHOLD: real := 0.6
  const TRIGGER_DEAD_ZONE: real := 0.05

  function Abs(v: real): real
  {
    if v < 0.0 then -v else v
  }

  /** `int(x)` on a real: truncation toward zero. */
  function Trunc(x: real): (r: int)
    ensures Abs(r as real) <= Abs(x) && Abs(x) < Abs(r as real) + 1.0
    ensures (r > 0 ==> x > 0.0) && (r < 0 ==> x < 0.0)
  {
    if x >= 0.0 then x.Floor else -((-x).Floor)
  }

  /** An axis reading rounded toward zero to three decimals and clamped to [-1, 1]. */
  function AxisValue(v: real): (r: real)
    ensures -1.0 <= r <= 1.0
    ensures -1.0 <= v <= 1.0 ==> Abs(r) <= Abs(v) && Abs(v) - Abs(r) < 0.001
    ensures (r > 0.0 ==> v > 0.0) && (r < 0.0 ==> v < 0.0)
  {
    var q := Trunc(v * 1000.0) as real / 1000.0;
    if q < -1.0 then -1.0 else if q > 1.0 then 1.0 else q
  }

  /** A stick reading within the dead zone counts as centred. */
  function DeadZone(v: real): (r: real)
    ensures r == 0.0 <==> Abs(v) <= DEAD_ZONE
    ensures r != 0.0 ==> r == v
  {
    if Abs(v) > DEAD_ZONE then v else 0.0
  }

  /** The D-pad's unit vector for a direction; up is y = 1. */
  function HatVector(d: Direction): (int, int)
  {
    match d
    case Stop => (0, 0)
    case Up => (0, 1)
    case Down => (0, -1)
    case Left => (-1, 0)
    case Right => (1, 0)
    case UpLeft => (-1, 1)
    case UpRight => (1, 1)
    case DownLeft => (-1, -1)
    case DownRight => (1, -1)
  }

  /** `_handle_hat_motion`'s mapping, after the optional inversion of y. */
  function HatDirection(x: int, y: int): (d: Direction)
    ensures d != Stop ==> HatVector(d) == (x, y)
    ensures d == Stop <==> !(-1 <= x <= 1 && -1 <= y <= 1) || (x == 0 && y == 0)
  {
    if x == 0 && y == 1 then Up
    else if x == 0 && y == -1 then Down
    else if x == -1 && y == 0 then Left
    else if x == 1 && y == 0 then Right
    else if x == -1 && y == 1 then UpLeft
    else if x == 1 && y == 1 then UpRight
    else if x == -1 && y == -1 then DownLeft
    else if x == 1 && y == -1 then DownRight
    else Stop
  }

  /** Every direction is reached by exactly its own D-pad vector. */
  lemma HatRoundTrip(d: Direction)
    ensures HatDirection(HatVector(d).0, HatVector(d).1) == d
  {
  }

  /** The signal the D-pad emits: the direction at the D-pad speed, or a stop at speed 0. */
  function HatSignal(x: int, y: int, s: Settings): (sig: Signal)
    ensures sig.Movement?
    ensures sig.direction == HatDirection(x, if s.invertVertical then -y else y)
    ensures sig.speed == if sig.direction == Stop then 0.0 else s.dpadSpeed
  {
    var d := HatDirection(x, if s.invertVertical then -y else y);
    if d == Stop then Movement(Stop, 0.0) else Movement(d, s.dpadSpeed)
  }

  /**
   * The direction of a stick position whose readings are already past the
   * dead zone: diagonal only when both axes are pushed beyond 0.6, else the
   * dominant axis, a tie going vertical; y < 0 is up. It never points
   * against the stick: its horizontal part is 0 or the sign of x and its
   * vertical part 0 or the sign of y (the D-pad's vertical part is negated).
   */
  function StickDirection(x: real, y: real): (d: Direction)
    ensures d == Stop <==> x == 0.0 && y == 0.0
    ensures HatVector(d).0 in {0, Sign(x)}
    ensures HatVector(d).1 in {0, -Sign(y)}
    ensures IsDiagonal(d) <==> Abs(x) > DIAGONAL_THRESHOLD && Abs(y) > DIAGONAL_THRESHOLD
    ensures !IsDiagonal(d) && d != Stop ==> (HatVector(d).0 != 0 <==> Abs(x) > Abs(y))
  {
    if x == 0.0 && y == 0.0 then Stop
    else if Abs(x) > DIAGONAL_THRESHOLD && Abs(y) > DIAGONAL_THRESHOLD then
      if x > 0.0 && y < 0.0 then UpRight
      else if x > 0.0 && y > 0.0 then DownRight
      else if x < 0.0 && y < 0.0 then UpLeft
      else DownLeft
    else if Abs(x) > Abs(y) then (if x > 0.0 then Right else Left)
    else (if y < 0.0 then Up else Down)
  }

  function Sign(v: real): int
  {
    if v > 0.0 then 1 else if v < 0.0 then -1 else 0
  }

  predicate IsDiagonal(d: Direction)
  {
    d == UpLeft || d == UpRight || d == DownLeft || d == DownRight
  }

  function MirrorX(d: Direction): Direction
  {
    match d
    case Left => Right
    case Right => Left
    case UpLeft => UpRight
    case UpRight => UpLeft
    case DownLeft => DownRight
    case DownRight => DownLeft
    case _ => d
  }

  function MirrorY(d: Direction): Direction
  {
    match d
    case Up => Down
    case Down => Up
    case UpLeft => DownLeft
    case DownLeft => UpLeft
    case UpRight => DownRight
    case DownRight => UpRight
    case _ => d
  }

  /** Mirroring the stick left-right or up-down mirrors the direction. */
  lemma StickDirectionSymmetric(x: real, y: real)
    ensures StickDirection(-x, y) == MirrorX(StickDirection(x, y))
    ensures StickDirection(x, -y) == MirrorY(StickDirection(x, y))
  {
  }

  /** The (x, y) reading `_update_movement_direction` works on, after the dead zone and inversion. */
  function StickReading(axisX: real, axisY: real, axisRy: real, s: Settings): (real, real)
  {
    var x := DeadZone(axisX);
    var y := DeadZone(if s.joystickMode == "dual" then axisRy else axisY);
    (x, if s.invertVertical then -y else y)
  }

  /** The speed sent with a stick direction: the configured stick speed, or 0 when centred. */
  function StickSpeed(x: real, y: real, s: Settings): (speed: real)
    ensures speed == 0.0 || speed == s.joystickSpeed
    ensures StickDirection(x, y) != Stop ==> speed == s.joystickSpeed
    ensures StickDirection(x, y) == Stop ==> speed == 0.0
  {
    if x != 0.0 || y != 0.0 then s.joystickSpeed else 0.0
  }

  /** The trigger signal for an axis reading: zoom at the scaled speed past the dead zone, else stop. */
  function TriggerSignal(value: real, zoomIn: bool, s: Settings): (sig: Signal)
    ensures sig == ZoomStop <==> value <= -0.9
    ensures sig != ZoomStop ==> (if zoomIn then sig.ZoomIn? else sig.ZoomOut?)
    ensures sig != ZoomStop ==> sig.speed == (value + 1.0) / 2.0 * s.zoomSpeed
  {
    var normalized := (value + 1.0) / 2.0;
    if normalized > TRIGGER_DEAD_ZONE then
      (if zoomIn then ZoomIn(normalized * s.zoomSpeed) else ZoomOut(normalized * s.zoomSpeed))
    else ZoomStop
  }

  /**
   * The action signal a pressed button emits after `button_pressed`, if any.
   * A brightness signal comes exactly from the two brightness buttons with
   * brightness control on.
   */
  function ButtonAction(button: int, s: Settings): (r: Option<Signal>)
    ensures r in {Some(BrightnessIncrease), Some(BrightnessDecrease)} <==>
      s.brightnessEnabled && (button == s.brightnessIncreaseButton || button == s.brightnessDecreaseButton)
  {
    if s.brightnessEnabled && button == s.brightnessIncreaseButton then Some(BrightnessIncrease)
    else if s.brightnessEnabled && button == s.brightnessDecreaseButton then Some(BrightnessDecrease)
    else if button == 1 then Some(ReconnectRequested)
    else if button == 2 then Some(StopMovement)
    else if button == 4 then Some(PrevCamera)
    else if button == 5 then Some(NextCamera)
    else None
  }

  /** Each action signal has a single button that emits it. */
  lemma ButtonActionsOnePerButton(b1: int, b2: int, s: Settings)
    requires ButtonAction(b1, s).Some? && ButtonAction(b1, s) == ButtonAction(b2, s)
    ensures b1 == b2
  {
  }

  /** Without a configuration no button adjusts brightness; the defaults keep 3 and 0 free for it otherwise. */
  lemma NoConfigButtons(button: int)
    ensures ButtonAction(button, NoConfig()).Some? <==> button in {1, 2, 4, 5}
  {
  }

  class Controller {
    var config: Option<Settings>
    var joystickPresent: bool
    var axisX: real
    var axisY: real
    var axisRx: real
    var axisRy: real
    var currentDirection: Direction
    /** The signals emitted so far, oldest first. */
    var emitted: seq<Signal>

    /** Every stored axis reading is within [-1, 1]. */
    ghost predicate Valid()
      reads this
    {
      -1.0 <= axisX <= 1.0 && -1.0 <= axisY <= 1.0 && -1.0 <= axisRx <= 1.0 && -1.0 <= axisRy <= 1.0
    }

    constructor(config: Option<Settings>)
      ensures Valid() && this.config == config && !joystickPresent
      ensures axisX == 0.0 && axisY == 0.0 && axisRx == 0.0 && axisRy == 0.0
      ensures currentDirection == Stop && emitted == []
    {
      this.config := config;
      joystickPresent := false;
      axisX := 0.0;
      axisY := 0.0;
      axisRx := 0.0;
      axisRy := 0.0;
      currentDirection := Stop;
      emitted := [];
    }

    /**
     * `_check_hotplug` with the device count: a new device is announced, a
     * vanished one is reported and the stick state reset.
     */
    method CheckHotplug(count: nat, name: string)
      requires Valid()
      modifies this`joystickPresent, this`emitted, this`axisX, this`axisY, this`currentDirection
      ensures Valid() && config == old(config) && axisRx == old(axisRx) && axisRy == old(axisRy)
      ensures count > 0 && !old(joystickPresent) ==>
        joystickPresent && emitted == old(emitted) + [Connected(name)]
        && axisX == old(axisX) && axisY == old(axisY) && currentDirection == old(currentDirection)
      ensures count == 0 && old(joystickPresent) ==>
        !joystickPresent && currentDirection == Stop && axisX == 0.0 && axisY == 0.0
        && emitted == old(emitted) + [Disconnected, Movement(Stop, 0.0), ZoomStop]
      ensures (count > 0) == old(joystickPresent) ==> unchanged(this)
    {
      if count > 0 && !joystickPresent {
        joystickPresent := true;
        emitted := emitted + [Connected(name)];
      } else if count == 0 && joystickPresent {
        joystickPresent := false;
        emitted := emitted + [Disconnected];
        ResetState();
      }
    }

    /** `_handle_button_down`. */
    method HandleButtonDown(button: int)
      modifies this`emitted
      ensures var action := ButtonAction(button, Effective(config));
        emitted == old(emitted) + [ButtonPressed(button)] + (if action.Some? then [action.value] else [])
    {
      emitted := emitted + [ButtonPressed(button)];
      var action := ButtonAction(button, Effective(config));
      if action.Some? {
        emitted := emitted + [action.value];
      }
    }

    /** `_handle_button_up`. */
    method HandleButtonUp(button: int)
      modifies this`emitted
      ensures emitted == old(emitted) + [ButtonReleased(button)]
    {
      emitted := emitted + [ButtonReleased(button)];
    }

    /**
     * `_update_movement_direction`: the direction is emitted, with the stick
     * speed (0 when centred), only when it differs from the current one,
     * which it then replaces.
     */
    method UpdateMovementDirection()
      modifies this`currentDirection, this`emitted
      ensures var (x, y) := StickReading(axisX, axisY, axisRy, Effective(config));
        currentDirection == StickDirection(x, y)
        && emitted == old(emitted) + (if currentDirection != old(currentDirection)
                                      then [Movement(currentDirection, StickSpeed(x, y, Effective(config)))] else [])
    {
      var s := Effective(config);
      var (x, y) := StickReading(axisX, axisY, axisRy, s);
      var speed := StickSpeed(x, y, s);
      var d := StickDirection(x, y);
      if d != currentDirection {
        currentDirection := d;
        emitted := emitted + [Movement(d, speed)];
      }
    }

    /**
     * `_handle_axis_motion`: the reading is rounded and clamped, announced, and
     * stored; the left stick always updates the direction, the right stick
     * only in dual mode, and the triggers zoom.
     */
    method HandleAxisMotion(axis: int, value: real)
      requires Valid()
      modifies this`axisX, this`axisY, this`axisRx, this`axisRy, this`currentDirection, this`emitted
      ensures Valid()
      ensures |emitted| > |old(emitted)| && emitted[|old(emitted)|] == AxisMoved(axis, AxisValue(value))
      ensures axisX == (if axis == 0 then AxisValue(value) else old(axisX))
      ensures axisY == (if axis == 1 then AxisValue(value) else old(axisY))
      ensures axisRx == (if axis == 2 then AxisValue(value) else old(axisRx))
      ensures axisRy == (if axis == 3 then AxisValue(value) else old(axisRy))
      ensures axis == 4 ==> emitted == old(emitted) + [AxisMoved(axis, AxisValue(value)), TriggerSignal(AxisValue(value), false, Effective(config))]
      ensures axis == 5 ==> emitted == old(emitted) + [AxisMoved(axis, AxisValue(value)), TriggerSignal(AxisValue(value), true, Effective(config))]
      ensures (axis == 0 || axis == 1 || (Effective(config).joystickMode == "dual" && (axis == 2 || axis == 3))) ==>
        currentDirection == StickDirection(StickReading(axisX, axisY, axisRy, Effective(config)).0,
                                           StickReading(axisX, axisY, axisRy, Effective(config)).1)
      ensures (axis == 0 || axis == 1 || (Effective(config).joystickMode == "dual" && (axis == 2 || axis == 3))) ==>
        emitted == old(emitted) + [AxisMoved(axis, AxisValue(value))]
          + (if currentDirection != old(currentDirection)
             then [Movement(currentDirection, StickSpeed(StickReading(axisX, axisY, axisRy, Effective(config)).0,
                                                         StickReading(axisX, axisY, axisRy, Effective(config)).1, Effective(config)))]
             else [])
      ensures !(axis == 0 || axis == 1 || (Effective(config).joystickMode == "dual" && (axis == 2 || axis == 3))) ==>
        currentDirection == old(currentDirection)
      ensures (axis == 2 || axis == 3) && Effective(config).joystickMode != "dual" ==>
        emitted == old(emitted) + [AxisMoved(axis, AxisValue(value))]
      ensures !(0 <= axis <= 5) ==> emitted == old(emitted) + [AxisMoved(axis, AxisValue(value))]
    {
      var v := AxisValue(value);
      emitted := emitted + [AxisMoved(axis, v)];
      var s := Effective(config);
      if axis == 0 {
        axisX := v;
        UpdateMovementDirection();
      } else if axis == 1 {
        axisY := v;
        UpdateMovementDirection();
      } else if axis == 2 {
        axisRx := v;
        if s.joystickMode == "dual" {
          UpdateMovementDirection();
        }
      } else if axis == 3 {
        axisRy := v;
        if s.joystickMode == "dual" {
          UpdateMovementDirection();
        }
      } else if axis == 4 {
        emitted := emitted + [TriggerSignal(v, false, s)];
      } else if axis == 5 {
        emitted := emitted + [TriggerSignal(v, true, s)];
      }
    }

    /** `_handle_hat_motion`: only hat 0 is handled. */
    method HandleHatMotion(hat: int, x: int, y: int)
      modifies this`emitted
      ensures hat != 0 ==> emitted == old(emitted)
      ensures hat == 0 ==> emitted == old(emitted) + [HatSignal(x, y, Effective(config))]
    {
      if hat != 0 {
        return;
      }
      emitted := emitted + [HatSignal(x, y, Effective(config))];
    }

    /** `_reset_state`: the left stick centred, direction STOP, and STOP and zoom stop emitted. */
    method ResetState()
      requires Valid()
      modifies this`axisX, this`axisY, this`currentDirection, this`emitted
      ensures Valid()
      ensures axisX == 0.0 && axisY == 0.0 && currentDirection == Stop
      ensures emitted == old(emitted) + [Movement(Stop, 0.0), ZoomStop]
    {
      axisX := 0.0;
      axisY := 0.0;
      currentDirection := Stop;
      emitted := emitted + [Movement(Stop, 0.0), ZoomStop];
    }
  }

  /**
   * Holding the stick still emits the direction once: a second identical
   * reading emits nothing more.
   */
  method HoldingStickEmitsOnce(config: Option<Settings>) returns (first: nat, second: nat)
    ensures first == 2 && second == 1
  {
    assert AxisValue(0.9) == 0.9 by {
      assert 0.9 * 1000.0 == 900.0;
      assert Trunc(900.0) == 900;
    }
    var c := new Controller(config);
    var before := |c.emitted|;
    c.HandleAxisMotion(0, 0.9);
    first := |c.emitted| - before;
    before := |c.emitted|;
    c.HandleAxisMotion(0, 0.9);
    second := |c.emitted| - before;
  }
}
