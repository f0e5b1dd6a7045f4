/**
 * The state a camera tile keeps beside its video: the name it shows, the
 * connection indicator and automatic reconnection with back-off, the
 * preset-based auto pan, the exposure and white balance controls shown for
 * each mode, the controller's brightness buttons and the camera memory slots
 * presets are stored in. Qt timers are fields holding their interval (None
 * when stopped); the VISCA preset commands the tile sends are appended to a
 * log, with the camera's answer passed in.
 */
module CameraWidget {
  import opened Wrappers
  import ViscaIP
  import ConfigManager
  import Seqs

  // ---------------------------------------------------------------------
  // Display name

  function LowerChar(c: char): char
  {
    if 'A' <= c <= 'Z' then (c as int + 32) as char else c
  }

  /** `str.lower()` on ASCII letters. */
  function Lower(s: string): (r: string)
    ensures |r| == |s|
  {
    seq(|s|, i requires 0 <= i < |s| => LowerChar(s[i]))
  }

  lemma LowerConcat(a: string, b: string)
    ensures Lower(a + b) == Lower(a) + Lower(b)
  {
  }

  /** Python's `t in s` on strings: `t` occurs in `s` as a contiguous piece. */
  predicate Occurs(t: string, s: string)
    decreases |s|
  {
    |t| <= |s| && (s[..|t|] == t || Occurs(t, s[1..]))
  }

  lemma OccursInPrefix(t: string, s: string, u: string)
    requires t <= s
    ensures Occurs(t, s + u)
  {
    assert (s + u)[..|t|] == t;
  }

  /** A piece of `s` is a piece of any text that has `s` inside it. */
  lemma {:induction false} OccursInside(t: string, s: string, u: string, v: string)
    requires Occurs(t, s)
    ensures Occurs(t, u + s + v)
    decreases |u| + |s|
  {
    if |u| > 0 {
      OccursInside(t, s, u[1..], v);
      assert (u + s + v)[1..] == u[1..] + s + v;
    } else if s[..|t|] == t {
      assert u + s + v == s + v;
      OccursInPrefix(t, s, v);
    } else {
      OccursInside(t, s[1..], [], v);
      assert [] + s[1..] + v == s[1..] + v;
      assert (s + v)[1..] == s[1..] + v;
      assert u + s + v == s + v;
    }
  }

  /**
   * The name a tile shows for NDI name `ndi` and address `addr`: the
   * address alone when there is no NDI name, the NDI name alone when it
   * already contains the address (ignoring case), and "NDI (address)"
   * otherwise.
   */
  function DisplayName(ndi: string, addr: string): (r: string)
    ensures ndi <= r
  {
    if ndi == "" then addr
    else if Occurs(Lower(addr), Lower(ndi)) then ndi
    else ndi + " (" + addr + ")"
  }

  /** The shown name always contains the address, ignoring case. */
  lemma DisplayNameShowsAddress(ndi: string, addr: string)
    ensures Occurs(Lower(addr), Lower(DisplayName(ndi, addr)))
  {
    var la := Lower(addr);
    if ndi == "" {
      OccursInPrefix(la, la, []);
      assert la + [] == la;
    } else if !Occurs(la, Lower(ndi)) {
      OccursInPrefix(la, la, []);
      assert la + [] == la;
      LowerConcat(ndi + " (", addr);
      LowerConcat(ndi + " (" + addr, ")");
      OccursInside(la, la, Lower(ndi + " ("), Lower(")"));
    }
  }

  /** Formatting a shown name again with the same address changes nothing. */
  lemma DisplayNameIdempotent(ndi: string, addr: string)
    ensures DisplayName(DisplayName(ndi, addr), addr) == DisplayName(ndi, addr)
  {
    DisplayNameShowsAddress(ndi, addr);
  }

  // ---------------------------------------------------------------------
  // Connection retry

  /** `_max_retries`. */
  const MaxRetries: nat := 3

  /**
   * One `_retry_connection`: below the limit, the count goes up and a retry
   * is scheduled after 2^count seconds; at the limit, the count goes back to
   * 0 and nothing is scheduled.
   */
  function RetryStep(count: nat): (r: (nat, Option<nat>))
    ensures count < MaxRetries ==> r.0 == count + 1 && r.1 == Some(Seqs.Pow2(count + 1))
    ensures count >= MaxRetries ==> r.0 == 0 && r.1.None?
  {
    if count >= MaxRetries then (0, None) else (count + 1, Some(Seqs.Pow2(count + 1)))
  }

  /** The delays, in seconds, of `n` retries in a row starting from count `count`. */
  function RetryDelays(count: nat, n: nat): (r: seq<Option<nat>>)
    ensures |r| == n
    decreases n
  {
    if n == 0 then [] else [RetryStep(count).1] + RetryDelays(RetryStep(count).0, n - 1)
  }

  /** From a fresh count the retries wait 2, 4 and 8 seconds, then give up and start over. */
  lemma RetryBackoff()
    ensures RetryDelays(0, 4) == [Some(2), Some(4), Some(8), None]
    ensures RetryStep(RetryStep(RetryStep(RetryStep(0).0).0).0).0 == 0
  {
    assert Seqs.Pow2(1) == 2 && Seqs.Pow2(2) == 4 && Seqs.Pow2(3) == 8;
  }

  /** The wait before the retry made at count `count`: 2^(count+1) seconds below the limit, none at it. */
  function DelayAt(count: nat): Option<nat>
  {
    if count < MaxRetries then Some(Seqs.Pow2(count + 1)) else None
  }

  /**
   * The retries cycle through the counts 0..3: the k-th of a run of retries
   * starting at count `count` waits as the count `(count + k) mod 4` says.
   */
  lemma {:induction false} RetryDelaysCycle(count: nat, n: nat, k: nat)
    requires count <= MaxRetries && k < n
    ensures RetryDelays(count, n)[k] == DelayAt((count + k) % (MaxRetries + 1))
    decreases n
  {
    if k > 0 {
      var next := RetryStep(count).0;
      RetryDelaysCycle(next, n - 1, k - 1);
      assert next == (count + 1) % (MaxRetries + 1);
      assert (next + (k - 1)) % (MaxRetries + 1) == (count + k) % (MaxRetries + 1);
    }
  }

  // ---------------------------------------------------------------------
  // Auto pan

  datatype Side = Left | Right

  /** The target after a tick: left becomes right, anything else becomes left. */
  function NextTarget(target: Side): (r: Side)
    ensures r != target
  {
    if target == Left then Right else Left
  }

  /**
   * The sides `n` ticks in a row go to, starting from `target`: each tick goes
   * to the side its target names, so after a start aimed left the ticks go
   * left, right, left, …
   */
  function TickSides(target: Side, n: nat): (r: seq<Side>)
    ensures |r| == n
    ensures forall k :: 0 <= k < n ==> r[k] == if k % 2 == 0 then target else NextTarget(target)
    decreases n
  {
    if n == 0 then []
    else
      var rest := TickSides(NextTarget(target), n - 1);
      assert NextTarget(NextTarget(target)) == target;
      [target] + rest
  }

  /** The texts the preset lists show when a camera has no presets. */
  const NoPresetsText: string := "(No presets available)"

  /** `on_start_auto_pan` refuses: a missing or placeholder left or right preset, or the same preset twice. */
  predicate AutoPanRefused(left: string, right: string)
  {
    left == "" || right == "" || left == NoPresetsText || left == right
  }

  // ---------------------------------------------------------------------
  // Preset slots

  /** A VISCA preset command sent to the camera: store or recall a memory slot. */
  datatype PresetCommand = Store(slot: nat) | Recall(slot: nat)

  /**
   * A slot the camera's preset commands can address: `store_preset_position`
   * and `recall_preset_position` refuse any other number and send nothing.
   */
  predicate Addressable(slot: nat)
  {
    ViscaIP.StorePreset(slot).Command? && ViscaIP.RecallPreset(slot).Command?
  }

  /** The camera memory holds the slots 0..254. */
  lemma AddressableSlots(slot: nat)
    ensures Addressable(slot) <==> slot <= 254
  {
  }

  /** The memory slot a preset's name is recalled from: the index of the first preset with that name. */
  function RecallSlot(presets: seq<ConfigManager.Preset>, name: string): Option<nat>
  {
    ConfigManager.FirstPresetNamed(presets, name)
  }

  /** The auto pan's `presets.index` of the first preset with a name is that preset's own position. */
  lemma IndexOfFirstNamed(presets: seq<ConfigManager.Preset>, name: string)
    requires RecallSlot(presets, name).Some?
    ensures Seqs.IndexOf(presets, presets[RecallSlot(presets, name).value]) == RecallSlot(presets, name).value
  {
  }

  /**
   * Storing a preset under a name already in use: the new position goes to
   * slot `|presets|`, but recalling the name still finds the earlier preset,
   * so the new slot is never recalled by name.
   */
  lemma DuplicateNameUnreachable(presets: seq<ConfigManager.Preset>, name: string)
    requires RecallSlot(presets, name).Some?
    ensures RecallSlot(presets + [ConfigManager.Preset(name, 0, 0, 0)], name) != Some(|presets|)
  {
    var i := RecallSlot(presets, name).value;
    var after := presets + [ConfigManager.Preset(name, 0, 0, 0)];
    assert after[i] == presets[i];
  }

  /** A concrete case: two presets stored as "Wide"; recalling "Wide" goes to slot 0, not slot 1. */
  lemma DuplicateNameExample()
    ensures RecallSlot([ConfigManager.Preset("Wide", 0, 0, 0), ConfigManager.Preset("Wide", 0, 0, 0)], "Wide") == Some(0)
  {
  }

  /** When the name is new, the stored slot is the one its name recalls. */
  lemma NewNameRecallsStoredSlot(presets: seq<ConfigManager.Preset>, name: string)
    requires RecallSlot(presets, name).None?
    ensures RecallSlot(presets + [ConfigManager.Preset(name, 0, 0, 0)], name) == Some(|presets|)
  {
    var after := presets + [ConfigManager.Preset(name, 0, 0, 0)];
    assert after[|presets|].name == name;
  }

  /** Changing a camera's presets keeps every camera where it is in the list. */
  lemma FirstWithIdKeptByPresets(cams: seq<ConfigManager.Camera>, i: nat, ps: seq<ConfigManager.Preset>, id: string)
    requires i < |cams|
    ensures ConfigManager.FirstWithId(cams[i := cams[i].(presets := ps)], id) == ConfigManager.FirstWithId(cams, id)
  {
    var after := cams[i := cams[i].(presets := ps)];
    assert forall k :: 0 <= k < |cams| ==> after[k].id == cams[k].id;
  }

  /**
   * The slot `auto_pan_tick` recalls: it looks for the first preset with the
   * name, then takes that preset's `presets.index`, which is the same slot.
   */
  method AutoPanSlot(presets: seq<ConfigManager.Preset>, name: string) returns (slot: Option<nat>)
    ensures slot == RecallSlot(presets, name)
  {
    var k := 0;
    while k < |presets| && presets[k].name != name
      invariant k <= |presets|
      invariant forall m :: 0 <= m < k ==> presets[m].name != name
    {
      k := k + 1;
    }
    if k == |presets| {
      return None;
    }
    IndexOfFirstNamed(presets, name);
    slot := Some(Seqs.IndexOf(presets, presets[k]));
  }

  // ---------------------------------------------------------------------
  // Exposure and white balance controls

  /** Which exposure controls are shown. */
  datatype ExposureControls = ExposureControls(iris: bool, shutter: bool, gain: bool, brightness: bool)

  /** The exposure controls shown in a mode: those the mode leaves to the operator. */
  function ExposureControlsFor(mode: ViscaIP.ExposureMode): (r: ExposureControls)
    ensures r.iris <==> mode == ViscaIP.ExposureManual || mode == ViscaIP.IrisPriority
    ensures r.shutter <==> mode == ViscaIP.ExposureManual || mode == ViscaIP.ShutterPriority
    ensures r.gain <==> mode == ViscaIP.ExposureManual
    ensures r.brightness <==> mode == ViscaIP.Bright
  {
    var manual := mode == ViscaIP.ExposureManual;
    ExposureControls(manual || mode == ViscaIP.IrisPriority, manual || mode == ViscaIP.ShutterPriority,
                     manual, mode == ViscaIP.Bright)
  }

  /**
   * Gain is shown only together with iris and shutter; brightness is shown
   * only alone; automatic and unknown modes show nothing.
   */
  lemma ExposureControlsConsistent(mode: ViscaIP.ExposureMode)
    ensures ExposureControlsFor(mode).gain ==> ExposureControlsFor(mode).iris && ExposureControlsFor(mode).shutter
    ensures ExposureControlsFor(mode).brightness ==>
      !ExposureControlsFor(mode).iris && !ExposureControlsFor(mode).shutter && !ExposureControlsFor(mode).gain
    ensures mode == ViscaIP.ExposureAuto || mode == ViscaIP.ExposureUnknown ==>
      ExposureControlsFor(mode) == ExposureControls(false, false, false, false)
    ensures ExposureControlsFor(mode).iris && ExposureControlsFor(mode).shutter ==> mode == ViscaIP.ExposureManual
  {
  }

  /** Which white balance controls are shown: the red and blue gains, the one-push button. */
  datatype WhiteBalanceControls = WhiteBalanceControls(gains: bool, onePush: bool)

  function WhiteBalanceControlsFor(mode: ViscaIP.WhiteBalanceMode): (r: WhiteBalanceControls)
    ensures r.gains <==> mode == ViscaIP.WbManual
    ensures r.onePush <==> mode == ViscaIP.WbOnePush
  {
    WhiteBalanceControls(mode == ViscaIP.WbManual, mode == ViscaIP.WbOnePush)
  }

  /** The manual gains and the one-push button are never shown together. */
  lemma WhiteBalanceControlsExclusive(mode: ViscaIP.WhiteBalanceMode)
    ensures !(WhiteBalanceControlsFor(mode).gains && WhiteBalanceControlsFor(mode).onePush)
  {
  }

  // ---------------------------------------------------------------------
  // Brightness from the controller

  /** The brightness slider's range. */
  const BrightnessMax: int := 41

  /** `QSlider.setValue`: the value is kept within the slider's range. */
  function ClampBrightness(v: int): (r: int)
    ensures 0 <= r <= BrightnessMax
    ensures 0 <= v <= BrightnessMax ==> r == v
  {
    if v < 0 then 0 else if v > BrightnessMax then BrightnessMax else v
  }

  /** One brightness button press: `min(value + step, 41)` or `max(value - step, 0)`, as the slider keeps it. */
  function BrightnessAfter(value: int, step: int, up: bool): (r: int)
    requires 0 <= value <= BrightnessMax
    ensures 0 <= r <= BrightnessMax
    ensures up && step >= 0 ==> value <= r && (r == value + step || r == BrightnessMax)
    ensures !up && step >= 0 ==> r <= value && (r == value - step || r == 0)
  {
    var v := if up then (if value + step < BrightnessMax then value + step else BrightnessMax)
             else (if value - step > 0 then value - step else 0);
    ClampBrightness(v)
  }

  /** Away from the ends, one press up and one press down come back to the same value. */
  lemma BrightnessRoundTrip(value: int, step: nat)
    requires 0 <= value && value + step <= BrightnessMax
    ensures BrightnessAfter(BrightnessAfter(value, step, true), step, false) == value
  {
  }

  // ---------------------------------------------------------------------
  // The tile

  class Widget {
    const config: ConfigManager.Config
    const cameraId: string
    const ndiSourceName: string
    const viscaIp: string

    var cachedDisplayName: string
    var isSelected: bool
    var isConnected: bool
    var controlsEnabled: bool
    var reconnectVisible: bool

    var retryCount: nat
    /** The retry timer's interval in milliseconds while it runs. */
    var retryTimer: Option<nat>
    /** Reconnection attempts scheduled. */
    var reconnectsScheduled: nat
    /** Whether the first retry is scheduled by `start_retry_mechanism`. */
    var retryPending: bool

    /** The texts of the left and right preset lists. */
    var leftPreset: string
    var rightPreset: string
    var autoPanActive: bool
    var autoPanTarget: Side
    /** The auto pan timer's interval in milliseconds while it runs. */
    var autoPanTimer: Option<nat>

    var exposureMode: ViscaIP.ExposureMode
    var exposureControls: ExposureControls
    var whiteBalanceControls: WhiteBalanceControls
    var brightness: int

    /** The preset commands sent to the camera, oldest first. */
    var presetCommands: seq<PresetCommand>
    /** The brightness commands the brightness slider sent to the camera, oldest first. */
    var brightnessCommands: seq<seq<int>>

    /** The controls are enabled exactly while the camera is connected; the brightness is in range. */
    ghost predicate Valid()
      reads this
    {
      controlsEnabled == isConnected && 0 <= brightness <= BrightnessMax && retryCount <= MaxRetries
    }

    /** A new tile: not selected, not connected, controls disabled, auto pan stopped and aimed left. */
    constructor(config: ConfigManager.Config, cameraId: string, ndiSourceName: string, viscaIp: string)
      ensures Valid()
      ensures this.config == config && this.cameraId == cameraId
      ensures this.ndiSourceName == ndiSourceName && this.viscaIp == viscaIp
      ensures cachedDisplayName == "" && !isSelected && !isConnected && !reconnectVisible
      ensures retryCount == 0 && retryTimer.None? && reconnectsScheduled == 0 && !retryPending
      ensures !autoPanActive && autoPanTarget == Left && autoPanTimer.None?
      ensures brightness == 21 && presetCommands == [] && brightnessCommands == []
    {
      this.config := config;
      this.cameraId := cameraId;
      this.ndiSourceName := ndiSourceName;
      this.viscaIp := viscaIp;
      cachedDisplayName := "";
      isSelected := false;
      isConnected := false;
      controlsEnabled := false;
      reconnectVisible := false;
      retryCount := 0;
      retryTimer := None;
      reconnectsScheduled := 0;
      retryPending := false;
      leftPreset := "";
      rightPreset := "";
      autoPanActive := false;
      autoPanTarget := Left;
      autoPanTimer := None;
      exposureMode := ViscaIP.ExposureAuto;
      exposureControls := ExposureControlsFor(ViscaIP.ExposureAuto);
      whiteBalanceControls := WhiteBalanceControlsFor(ViscaIP.WbAuto);
      brightness := 21;
      presetCommands := [];
      brightnessCommands := [];
    }

    /**
     * `_format_camera_display_name`: the cached name unless there is none or
     * a refresh is forced; otherwise the name formatted from the given NDI
     * name and address (the tile's own when empty), which is then cached.
     */
    method FormatDisplayName(ndiName: string, ip: string, forceRefresh: bool) returns (r: string)
      modifies this`cachedDisplayName
      ensures old(cachedDisplayName) != "" && !forceRefresh ==> r == old(cachedDisplayName) && cachedDisplayName == r
      ensures !(old(cachedDisplayName) != "" && !forceRefresh) ==>
        r == DisplayName(if ndiName != "" then ndiName else ndiSourceName, if ip != "" then ip else viscaIp)
      ensures cachedDisplayName == r
    {
      if cachedDisplayName != "" && !forceRefresh {
        return cachedDisplayName;
      }
      var ndi := if ndiName != "" then ndiName else ndiSourceName;
      var addr := if ip != "" then ip else viscaIp;
      if ndi == "" {
        r := addr;
      } else if Occurs(Lower(addr), Lower(ndi)) {
        r := ndi;
      } else {
        r := ndi + " (" + addr + ")";
      }
      cachedDisplayName := r;
    }

    /**
     * `update_status_indicator`: the connection state becomes the command's
     * outcome; a lost connection shows the reconnect button and disables the
     * controls, a regained one hides the button and enables them.
     */
    method UpdateStatusIndicator(success: bool)
      requires Valid()
      modifies this`isConnected, this`controlsEnabled, this`reconnectVisible
      ensures Valid()
      ensures isConnected == success && controlsEnabled == success
      ensures old(isConnected) && !success ==> reconnectVisible
      ensures !old(isConnected) && success ==> !reconnectVisible
      ensures old(isConnected) == success ==> reconnectVisible == old(reconnectVisible)
    {
      var wasConnected := isConnected;
      isConnected := success;
      if !success && wasConnected {
        reconnectVisible := true;
        controlsEnabled := false;
      } else if success && !wasConnected {
        reconnectVisible := false;
        controlsEnabled := true;
      }
    }

    /**
     * `_retry_connection`: the retry timer stops; below the limit the count
     * goes up, the timer restarts with 2^count seconds and a reconnection is
     * scheduled; at the limit the count goes back to 0 and the reconnect
     * button is shown.
     */
    method RetryConnection()
      requires Valid()
      modifies this`retryCount, this`retryTimer, this`reconnectsScheduled, this`reconnectVisible
      ensures Valid()
      ensures retryCount == RetryStep(old(retryCount)).0
      ensures RetryStep(old(retryCount)).1.Some? ==>
        retryTimer == Some(RetryStep(old(retryCount)).1.value * 1000) && reconnectsScheduled == old(reconnectsScheduled) + 1
          && reconnectVisible == old(reconnectVisible)
      ensures RetryStep(old(retryCount)).1.None? ==>
        retryTimer.None? && reconnectsScheduled == old(reconnectsScheduled) && reconnectVisible
    {
      retryTimer := None;
      if retryCount >= MaxRetries {
        retryCount := 0;
        reconnectVisible := true;
        return;
      }
      retryCount := retryCount + 1;
      retryTimer := Some(Seqs.Pow2(retryCount) * 1000);
      reconnectsScheduled := reconnectsScheduled + 1;
    }

    /** `start_retry_mechanism`: nothing when connected; otherwise a fresh count and a first retry scheduled. */
    method StartRetryMechanism()
      requires Valid()
      modifies this`retryCount, this`retryPending
      ensures Valid()
      ensures old(isConnected) ==> retryCount == old(retryCount) && retryPending == old(retryPending)
      ensures !old(isConnected) ==> retryCount == 0 && retryPending
    {
      if isConnected {
        return;
      }
      retryCount := 0;
      retryPending := true;
    }

    /** `stop_retry_mechanism`: the timer stops and the count goes back to 0. */
    method StopRetryMechanism()
      requires Valid()
      modifies this`retryCount, this`retryTimer
      ensures Valid() && retryCount == 0 && retryTimer.None?
    {
      retryTimer := None;
      retryCount := 0;
    }

    /**
     * `auto_pan_tick`: go to the preset on the target side and flip the
     * target; the preset is recalled from the slot of the first preset with
     * that name (its position in the camera's preset list), if there is one
     * and the camera can address it.
     */
    method AutoPanTick()
      modifies this`autoPanTarget, this`presetCommands
      ensures autoPanTarget == NextTarget(old(autoPanTarget))
      ensures var name := if old(autoPanTarget) == Left then leftPreset else rightPreset;
        var slot := RecallSlot(config.GetPresets(cameraId), name);
        presetCommands == old(presetCommands) + (if slot.Some? && Addressable(slot.value) then [Recall(slot.value)] else [])
    {
      var name: string;
      if autoPanTarget == Left {
        name := leftPreset;
        autoPanTarget := Right;
      } else {
        name := rightPreset;
        autoPanTarget := Left;
      }
      var slot := AutoPanSlot(config.GetPresets(cameraId), name);
      if slot.Some? && ViscaIP.RecallPreset(slot.value).Command? {
        presetCommands := presetCommands + [Recall(slot.value)];
      }
    }

    /**
     * `on_start_auto_pan`: refused (nothing changes) without two different
     * presets; otherwise the timer runs every `delaySeconds`, auto pan is on,
     * aimed left, and the first tick goes to the left preset at once.
     */
    method OnStartAutoPan(delaySeconds: nat)
      modifies this`autoPanTimer, this`autoPanActive, this`autoPanTarget, this`presetCommands
      ensures AutoPanRefused(leftPreset, rightPreset) ==>
        autoPanTimer == old(autoPanTimer) && autoPanActive == old(autoPanActive)
          && autoPanTarget == old(autoPanTarget) && presetCommands == old(presetCommands)
      ensures !AutoPanRefused(leftPreset, rightPreset) ==>
        && autoPanTimer == Some(delaySeconds * 1000) && autoPanActive && autoPanTarget == Right
        && var slot := RecallSlot(config.GetPresets(cameraId), leftPreset);
           presetCommands == old(presetCommands) + (if slot.Some? && Addressable(slot.value) then [Recall(slot.value)] else [])
    {
      if leftPreset == "" || rightPreset == "" || leftPreset == NoPresetsText {
        return;
      }
      if leftPreset == rightPreset {
        return;
      }
      autoPanTimer := Some(delaySeconds * 1000);
      autoPanActive := true;
      autoPanTarget := Left;
      AutoPanTick();
    }

    /** `on_stop_auto_pan`: the timer stops and auto pan is off. */
    method OnStopAutoPan()
      modifies this`autoPanTimer, this`autoPanActive
      ensures autoPanTimer.None? && !autoPanActive
    {
      autoPanTimer := None;
      autoPanActive := false;
    }

    /**
     * `on_exposure_mode_changed`: the mode is sent to the camera unless it
     * was read from it (the outcome updates the indicator), and exactly the
     * controls the mode leaves to the operator are shown.
     */
    method OnExposureModeChanged(mode: ViscaIP.ExposureMode, sendCommand: bool, success: bool)
      requires Valid()
      modifies this`exposureMode, this`exposureControls, this`isConnected, this`controlsEnabled, this`reconnectVisible
      ensures Valid()
      ensures exposureMode == mode && exposureControls == ExposureControlsFor(mode)
      ensures sendCommand ==> isConnected == success
      ensures !sendCommand ==> isConnected == old(isConnected) && reconnectVisible == old(reconnectVisible)
    {
      exposureMode := mode;
      if sendCommand {
        UpdateStatusIndicator(success);
      }
      exposureControls := ExposureControlsFor(mode);
    }

    /** `on_wb_mode_changed`: as for exposure, with the gains shown in manual and the button in one-push mode. */
    method OnWhiteBalanceModeChanged(mode: ViscaIP.WhiteBalanceMode, sendCommand: bool, success: bool)
      requires Valid()
      modifies this`whiteBalanceControls, this`isConnected, this`controlsEnabled, this`reconnectVisible
      ensures Valid()
      ensures whiteBalanceControls == WhiteBalanceControlsFor(mode)
      ensures sendCommand ==> isConnected == success
      ensures !sendCommand ==> isConnected == old(isConnected) && reconnectVisible == old(reconnectVisible)
    {
      if sendCommand {
        UpdateStatusIndicator(success);
      }
      whiteBalanceControls := WhiteBalanceControlsFor(mode);
    }

    /**
     * `handle_usb_brightness_increase` / `_decrease`: only on the selected
     * tile in bright mode, the brightness moves by the configured step within
     * [0, 41]. A slider value that really changes fires `on_brightness_changed`,
     * which sends the brightness command; `success` is the send's outcome and
     * updates the status indicator.
     */
    method HandleUsbBrightness(up: bool, step: int, success: bool)
      requires Valid()
      modifies this`brightness, this`brightnessCommands, this`isConnected, this`controlsEnabled, this`reconnectVisible
      ensures Valid()
      ensures isSelected && exposureMode == ViscaIP.Bright ==> brightness == BrightnessAfter(old(brightness), step, up)
      ensures !(isSelected && exposureMode == ViscaIP.Bright) ==> brightness == old(brightness)
      ensures brightness != old(brightness) ==>
        brightnessCommands == old(brightnessCommands) + [ViscaIP.SetBrightness(brightness)] && isConnected == success
      ensures brightness == old(brightness) ==>
        brightnessCommands == old(brightnessCommands) && isConnected == old(isConnected)
        && reconnectVisible == old(reconnectVisible)
    {
      if !isSelected {
        return;
      }
      if exposureMode != ViscaIP.Bright {
        return;
      }
      var newValue := if up then (if brightness + step < BrightnessMax then brightness + step else BrightnessMax)
                      else (if brightness - step > 0 then brightness - step else 0);
      if newValue != brightness {
        var value := ClampBrightness(newValue);
        if value != brightness {
          brightness := value;
          brightnessCommands := brightnessCommands + [ViscaIP.SetBrightness(value)];
          UpdateStatusIndicator(success);
        }
      }
    }

    /**
     * `store_preset_dialog`: with a name entered, the position is stored in
     * the slot numbered by the current preset count. A slot the camera cannot
     * address is refused before sending; otherwise `accepted` is the camera's
     * answer. Only a stored preset is appended to the camera's list.
     */
    method StorePresetDialog(name: string, ok: bool, accepted: bool)
      modifies this`presetCommands, config`cameras
      ensures !(ok && name != "") ==> presetCommands == old(presetCommands) && config.cameras == old(config.cameras)
      ensures ok && name != "" ==>
        var slot := |old(config.GetPresets(cameraId))|;
        presetCommands == old(presetCommands) + (if Addressable(slot) then [Store(slot)] else [])
      ensures ok && name != "" && Addressable(|old(config.GetPresets(cameraId))|) && accepted
              && ConfigManager.FirstWithId(old(config.cameras), cameraId).Some? ==>
        config.GetPresets(cameraId) == old(config.GetPresets(cameraId)) + [ConfigManager.Preset(name, 0, 0, 0)]
      ensures !accepted || !Addressable(|old(config.GetPresets(cameraId))|)
              || ConfigManager.FirstWithId(old(config.cameras), cameraId).None? ==>
        config.cameras == old(config.cameras)
    {
      if !(ok && name != "") {
        return;
      }
      var presets := config.GetPresets(cameraId);
      var success := false;
      if ViscaIP.StorePreset(|presets|).Command? {
        presetCommands := presetCommands + [Store(|presets|)];
        success := accepted;
      }
      if success {
        ghost var before := config.cameras;
        config.AddPreset(cameraId, name, 0, 0, 0);
        if ConfigManager.FirstWithId(before, cameraId).Some? {
          var i := ConfigManager.FirstWithId(before, cameraId).value;
          FirstWithIdKeptByPresets(before, i, before[i].presets + [ConfigManager.Preset(name, 0, 0, 0)], cameraId);
        }
      }
    }

    /**
     * `store_preset_dialog` refusing a name already in use, as the rename
     * dialog does: a stored preset is then always the one its name recalls.
     */
    method StorePresetDialogChecked(name: string, ok: bool, accepted: bool)
      modifies this`presetCommands, config`cameras
      ensures RecallSlot(old(config.GetPresets(cameraId)), name).Some? || !(ok && name != "") ==>
        presetCommands == old(presetCommands) && config.cameras == old(config.cameras)
      ensures ok && name != "" && RecallSlot(old(config.GetPresets(cameraId)), name).None? ==>
        var slot := |old(config.GetPresets(cameraId))|;
        presetCommands == old(presetCommands) + (if Addressable(slot) then [Store(slot)] else [])
      ensures !accepted || !Addressable(|old(config.GetPresets(cameraId))|) ==> config.cameras == old(config.cameras)
      ensures (ok && name != "" && accepted && Addressable(|old(config.GetPresets(cameraId))|)
               && ConfigManager.FirstWithId(old(config.cameras), cameraId).Some?
               && RecallSlot(old(config.GetPresets(cameraId)), name).None?) ==>
        RecallSlot(config.GetPresets(cameraId), name) == Some(|old(config.GetPresets(cameraId))|)
    {
      if !(ok && name != "") {
        return;
      }
      var presets := config.GetPresets(cameraId);
      if RecallSlot(presets, name).Some? {
        return;
      }
      var success := false;
      if ViscaIP.StorePreset(|presets|).Command? {
        presetCommands := presetCommands + [Store(|presets|)];
        success := accepted;
      }
      if success {
        ghost var before := config.cameras;
        config.AddPreset(cameraId, name, 0, 0, 0);
        if ConfigManager.FirstWithId(before, cameraId).Some? {
          var i := ConfigManager.FirstWithId(before, cameraId).value;
          FirstWithIdKeptByPresets(before, i, before[i].presets + [ConfigManager.Preset(name, 0, 0, 0)], cameraId);
          NewNameRecallsStoredSlot(presets, name);
        }
      }
    }

    /**
     * `recall_preset`: the slot of the first preset with that name is
     * recalled and the outcome updates the indicator; a slot the camera
     * cannot address is refused before sending and shows as a failure;
     * nothing happens without such a preset. `accepted` is the camera's
     * answer to a command that was sent.
     */
    method RecallPreset(name: string, accepted: bool)
      requires Valid()
      modifies this`presetCommands, this`isConnected, this`controlsEnabled, this`reconnectVisible
      ensures Valid()
      ensures var slot := RecallSlot(config.GetPresets(cameraId), name);
        && (slot.Some? && Addressable(slot.value) ==>
              presetCommands == old(presetCommands) + [Recall(slot.value)] && isConnected == accepted)
        && (slot.Some? && !Addressable(slot.value) ==> presetCommands == old(presetCommands) && !isConnected)
        && (slot.None? ==> presetCommands == old(presetCommands) && isConnected == old(isConnected))
    {
      var presets := config.GetPresets(cameraId);
      var k := 0;
      while k < |presets| && presets[k].name != name
        invariant k <= |presets|
        invariant forall m :: 0 <= m < k ==> presets[m].name != name
      {
        k := k + 1;
      }
      if k < |presets| {
        assert RecallSlot(presets, name) == Some(k);
        var success := false;
        if ViscaIP.RecallPreset(k).Command? {
          presetCommands := presetCommands + [Recall(k)];
          success := accepted;
        }
        UpdateStatusIndicator(success);
      }
    }
  }
}
