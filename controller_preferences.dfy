/**
 * The game controller preferences dialog: which controller button each of
 * the five button actions is mapped to, with every button already taken by
 * another action greyed out in the other lists, and the controller's own
 * navigation of the dialog (sliders stepped by 5, check boxes toggled).
 * Qt widgets become small classes holding the state the handlers change;
 * the widget that has the focus is passed to each handler.
 */
module ControllerPreferences {
  import opened Wrappers
  import UsbController

  /** The controller buttons a mapping list offers, in list order. */
  const ButtonValues: seq<nat> := [0, 1, 2, 3, 6, 7, 8, 9]

  /** The item data of a list without a "None" entry. */
  function Buttons(): (r: seq<Option<nat>>)
    ensures |r| == |ButtonValues|
    ensures forall k :: 0 <= k < |r| ==> r[k] == Some(ButtonValues[k])
  {
    seq(|ButtonValues|, k requires 0 <= k < |ButtonValues| => Some(ButtonValues[k]))
  }

  /** The number of button-mapping lists: brightness up, brightness down, focus, stop, menu. */
  const ComboCount: nat := 5

  /**
   * The item data of the five lists, in the dialog's order: the two
   * brightness lists offer the buttons only, the focus, stop and menu lists
   * offer "None" first.
   */
  function ComboItems(): (r: seq<seq<Option<nat>>>)
    ensures |r| == ComboCount
    ensures r[0] == r[1] == Buttons()
    ensures r[2] == r[3] == r[4] == [None] + Buttons()
  {
    [Buttons(), Buttons(), [None] + Buttons(), [None] + Buttons(), [None] + Buttons()]
  }

  /** The buttons each list selects when the configuration has no entry for it. */
  const DefaultSelection: seq<Option<nat>> := [Some(3), Some(0), Some(1), Some(2), Some(7)]

  /** Some list other than list `c` currently selects button `v`. */
  predicate UsedElsewhere(selected: seq<Option<nat>>, c: nat, v: nat)
  {
    exists o :: 0 <= o < |selected| && o != c && selected[o] == Some(v)
  }

  /** An item of list `c` is enabled: it is "None", or no other list selects its button. */
  predicate ItemEnabled(selected: seq<Option<nat>>, c: nat, data: Option<nat>)
  {
    data.None? || !UsedElsewhere(selected, c, data.value)
  }

  /** `enabled` holds, list by list and item by item, whether the item is enabled. */
  ghost predicate AvailabilityOf(items: seq<seq<Option<nat>>>, selected: seq<Option<nat>>, enabled: seq<seq<bool>>)
  {
    && |enabled| == |items|
    && (forall c :: 0 <= c < |items| ==> |enabled[c]| == |items[c]|)
    && (forall c, row :: 0 <= c < |items| && 0 <= row < |items[c]| ==>
          enabled[c][row] == ItemEnabled(selected, c, items[c][row]))
  }

  /** The "None" entry of a list is always enabled. */
  lemma NoneAlwaysEnabled(items: seq<seq<Option<nat>>>, selected: seq<Option<nat>>, enabled: seq<seq<bool>>, c: nat, row: nat)
    requires AvailabilityOf(items, selected, enabled)
    requires c < |items| && row < |items[c]| && items[c][row].None?
    ensures enabled[c][row]
  {
  }

  /** The items carrying a list's own selection stay enabled when all selections differ. */
  lemma DistinctSelectionsStayEnabled(items: seq<seq<Option<nat>>>, selected: seq<Option<nat>>, enabled: seq<seq<bool>>)
    requires AvailabilityOf(items, selected, enabled) && |selected| == |items|
    requires forall c, o :: 0 <= c < o < |selected| && selected[c].Some? ==> selected[c] != selected[o]
    ensures forall c, row :: 0 <= c < |items| && 0 <= row < |items[c]| && items[c][row] == selected[c] ==> enabled[c][row]
  {
    forall c, row | 0 <= c < |items| && 0 <= row < |items[c]| && items[c][row] == selected[c]
      ensures enabled[c][row]
    {
      if items[c][row].Some? {
        forall o | 0 <= o < |selected| && o != c
          ensures selected[o] != selected[c]
        {
          if o > c {
            assert selected[c].Some?;
          }
        }
      }
    }
  }

  /** The default mappings are five different buttons, each offered by its own list. */
  lemma DefaultsDistinct()
    ensures forall c, o :: 0 <= c < o < ComboCount ==> DefaultSelection[c] != DefaultSelection[o]
    ensures forall c :: 0 <= c < ComboCount ==> DefaultSelection[c] in ComboItems()[c]
  {
    var items := ComboItems();
    assert items[0][3] == Some(3) && items[1][0] == Some(0);
    assert items[2][2] == Some(1) && items[3][3] == Some(2) && items[4][6] == Some(7);
  }

  /** With the default mappings, each list's own default item is enabled. */
  lemma DefaultsEnabled(enabled: seq<seq<bool>>)
    requires AvailabilityOf(ComboItems(), DefaultSelection, enabled)
    ensures forall c, row :: 0 <= c < ComboCount && 0 <= row < |ComboItems()[c]| && ComboItems()[c][row] == DefaultSelection[c] ==>
      enabled[c][row]
  {
    DefaultsDistinct();
    DistinctSelectionsStayEnabled(ComboItems(), DefaultSelection, enabled);
  }

  /** With the default mappings, each default button is disabled in the four other lists. */
  lemma DefaultsTakenElsewhere(enabled: seq<seq<bool>>, c: nat, row: nat)
    requires AvailabilityOf(ComboItems(), DefaultSelection, enabled)
    requires c < ComboCount && row < |ComboItems()[c]|
    requires ComboItems()[c][row] in DefaultSelection && ComboItems()[c][row] != DefaultSelection[c]
    ensures !enabled[c][row]
  {
    var data := ComboItems()[c][row];
    var o :| 0 <= o < |DefaultSelection| && DefaultSelection[o] == data;
    assert UsedElsewhere(DefaultSelection, c, data.value);
  }

  /** The configuration keys of the five lists, in the dialog's order. */
  const ConfigKeys: seq<string> :=
    ["brightness_increase_button", "brightness_decrease_button", "focus_one_push_button", "stop_movement_button", "menu_button"]

  /**
   * `usb_config.get(key, default)` for list `c`. A stored value is a button
   * number or JSON null (None), which is what saving a "None" selection writes.
   */
  function ConfiguredButton(config: map<string, Option<nat>>, c: nat): (r: Option<nat>)
    requires c < ComboCount
    ensures ConfigKeys[c] !in config ==> r == DefaultSelection[c]
    ensures ConfigKeys[c] in config ==> r == config[ConfigKeys[c]]
  {
    if ConfigKeys[c] in config then config[ConfigKeys[c]] else DefaultSelection[c]
  }

  /** The button part of `save_preferences`: each list's `currentData()` stored under its key. */
  function SaveButtonMappings(config: map<string, Option<nat>>, selected: seq<Option<nat>>): (r: map<string, Option<nat>>)
    requires |selected| == ComboCount
    ensures forall c :: 0 <= c < ComboCount ==> ConfigKeys[c] in r && r[ConfigKeys[c]] == selected[c]
    ensures forall k :: k in config && k !in ConfigKeys ==> k in r && r[k] == config[k]
  {
    config[ConfigKeys[0] := selected[0]][ConfigKeys[1] := selected[1]][ConfigKeys[2] := selected[2]]
          [ConfigKeys[3] := selected[3]][ConfigKeys[4] := selected[4]]
  }

  /** Saving the selections and loading them again asks every list for its own selection, "None" included. */
  lemma SavedSelectionsReload(config: map<string, Option<nat>>, selected: seq<Option<nat>>)
    requires |selected| == ComboCount
    ensures forall c :: 0 <= c < ComboCount ==> ConfiguredButton(SaveButtonMappings(config, selected), c) == selected[c]
  {
  }

  /** With nothing configured, every list is offered its default button and selects it. */
  lemma EmptyConfigSelectsDefaults()
    ensures forall c :: 0 <= c < ComboCount ==>
      ConfiguredButton(map[], c) == DefaultSelection[c] && ConfiguredButton(map[], c) in ComboItems()[c]
  {
    DefaultsDistinct();
  }

  /** The button-mapping part of the dialog: the lists' items, their selections and enabled flags. */
  class ButtonMappings {
    /** The item data of each list. */
    const items: seq<seq<Option<nat>>>
    /** `currentData()` of each list. */
    var selected: seq<Option<nat>>
    /** Whether each item of each list is enabled. */
    var enabled: seq<seq<bool>>

    /** Five lists, one selection each. */
    ghost predicate Valid()
      reads this
    {
      items == ComboItems() && |selected| == ComboCount
    }

    /** The lists as the dialog builds them, each selecting its first item, every item enabled. */
    constructor()
      ensures Valid() && forall c :: 0 <= c < ComboCount ==> selected[c] == items[c][0]
      ensures |enabled| == ComboCount && forall c :: 0 <= c < ComboCount ==> enabled[c] == seq(|items[c]|, _ => true)
    {
      items := ComboItems();
      selected := [Some(0), Some(0), None, None, None];
      var all: seq<seq<bool>> := [];
      var c := 0;
      while c < ComboCount
        invariant c <= ComboCount && |all| == c
        invariant forall k :: 0 <= k < c ==> all[k] == seq(|ComboItems()[k]|, _ => true)
      {
        all := all + [seq(|ComboItems()[c]|, _ => true)];
        c := c + 1;
      }
      enabled := all;
    }

    /** Whether a list other than list `c` selects button `v`: the inner loop, stopping at the first hit. */
    method IsUsedElsewhere(c: nat, v: nat) returns (used: bool)
      ensures used == UsedElsewhere(selected, c, v)
    {
      used := false;
      var o := 0;
      while o < |selected|
        invariant o <= |selected|
        invariant !used ==> forall k :: 0 <= k < o && k != c ==> selected[k] != Some(v)
        invariant used ==> UsedElsewhere(selected, c, v)
      {
        if o != c && selected[o].Some? && selected[o] == Some(v) {
          used := true;
          break;
        }
        o := o + 1;
      }
    }

    /**
     * `update_button_availability`: every "None" item is enabled, and every
     * button item is enabled exactly when no other list selects that button.
     */
    method UpdateButtonAvailability()
      modifies this`enabled
      ensures AvailabilityOf(items, selected, enabled)
    {
      var all: seq<seq<bool>> := [];
      var c := 0;
      while c < |items|
        invariant c <= |items| && |all| == c
        invariant forall k :: 0 <= k < c ==> |all[k]| == |items[k]|
        invariant forall k, row :: 0 <= k < c && 0 <= row < |items[k]| ==> all[k][row] == ItemEnabled(selected, k, items[k][row])
      {
        var flags: seq<bool> := [];
        var row := 0;
        while row < |items[c]|
          invariant row <= |items[c]| && |flags| == row
          invariant forall r :: 0 <= r < row ==> flags[r] == ItemEnabled(selected, c, items[c][r])
        {
          var data := items[c][row];
          if data.None? {
            flags := flags + [true];
          } else {
            var used := IsUsedElsewhere(c, data.value);
            flags := flags + [!used];
          }
          row := row + 1;
        }
        all := all + [flags];
        c := c + 1;
      }
      enabled := all;
    }

    /**
     * The button part of `load_preferences`: each list selects its configured
     * button (or its default) when the list offers it and keeps its selection
     * otherwise; then the availability is brought up to date.
     */
    method LoadButtonMappings(config: map<string, Option<nat>>)
      requires Valid()
      modifies this`selected, this`enabled
      ensures Valid()
      ensures forall c :: 0 <= c < ComboCount ==>
        selected[c] == if ConfiguredButton(config, c) in items[c] then ConfiguredButton(config, c) else old(selected)[c]
      ensures AvailabilityOf(items, selected, enabled)
    {
      var c := 0;
      while c < ComboCount
        invariant c <= ComboCount && Valid()
        invariant forall k :: 0 <= k < ComboCount ==>
          selected[k] == if k < c && ConfiguredButton(config, k) in items[k] then ConfiguredButton(config, k) else old(selected)[k]
      {
        var wanted := ConfiguredButton(config, c);
        if wanted in items[c] {
          selected := selected[c := wanted];
        }
        c := c + 1;
      }
      UpdateButtonAvailability();
    }
  }

  /** `min(value + 5, maximum)` or `max(value - 5, minimum)`: a slider step, kept within the range. */
  function Stepped(value: int, minimum: int, maximum: int, up: bool): (r: int)
    requires minimum <= value <= maximum
    ensures minimum <= r <= maximum
    ensures up ==> r >= value && (r == value + 5 || r == maximum)
    ensures !up ==> r <= value && (r == value - 5 || r == minimum)
  {
    if up then (if value + 5 < maximum then value + 5 else maximum)
    else (if value - 5 > minimum then value - 5 else minimum)
  }

  /** Away from the ends, a step up followed by a step down comes back, and the other way round. */
  lemma SteppedRoundTrip(value: int, minimum: int, maximum: int)
    requires minimum <= value <= maximum
    ensures value + 5 <= maximum ==> Stepped(Stepped(value, minimum, maximum, true), minimum, maximum, false) == value
    ensures value - 5 >= minimum ==> Stepped(Stepped(value, minimum, maximum, false), minimum, maximum, true) == value
  {
  }

  /** Stepping keeps the order of two slider positions. */
  lemma SteppedMonotone(a: int, b: int, minimum: int, maximum: int, up: bool)
    requires minimum <= a <= b <= maximum
    ensures Stepped(a, minimum, maximum, up) <= Stepped(b, minimum, maximum, up)
  {
  }

  /** A `QSlider`: its value within its range. */
  class Slider {
    var value: int
    var minimum: int
    var maximum: int

    ghost predicate Valid()
      reads this
    {
      minimum <= value <= maximum
    }

    constructor(minimum: int, maximum: int, value: int)
      requires minimum <= value <= maximum
      ensures Valid() && this.value == value && this.minimum == minimum && this.maximum == maximum
    {
      this.minimum := minimum;
      this.maximum := maximum;
      this.value := value;
    }

    /** One step of 5 up or down, clamped to the range. */
    method Step(up: bool)
      requires Valid()
      modifies this`value
      ensures Valid()
      ensures value == Stepped(old(value), minimum, maximum, up)
    {
      if up {
        value := if value + 5 < maximum then value + 5 else maximum;
      } else {
        value := if value - 5 > minimum then value - 5 else minimum;
      }
    }
  }

  /** A `QCheckBox`: whether it is checked. */
  class CheckBox {
    var checked: bool

    constructor(checked: bool)
      ensures this.checked == checked
    {
      this.checked := checked;
    }
  }

  /** The widget that has the focus, as far as the handlers care. */
  datatype Focus = FocusSlider(slider: Slider) | FocusCheckBox(box: CheckBox) | FocusOther

  /** The objects a handler may change through the focused widget. */
  function FocusFrame(focused: Focus): set<object>
  {
    match focused
    case FocusSlider(s) => {s}
    case FocusCheckBox(b) => {b}
    case FocusOther => {}
  }

  /** A focused slider must be in range. */
  ghost predicate FocusValid(focused: Focus)
    reads FocusFrame(focused)
  {
    focused.FocusSlider? ==> focused.slider.Valid()
  }

  /** `on_b_button_pressed`: a focused check box is toggled; any other focus is left alone. */
  method OnBButtonPressed(focused: Focus)
    modifies FocusFrame(focused)
    ensures focused.FocusCheckBox? ==> focused.box.checked == !old(focused.box.checked)
    ensures focused.FocusSlider? ==> unchanged(focused.slider)
  {
    if focused.FocusCheckBox? {
      focused.box.checked := !focused.box.checked;
    }
  }

  /**
   * `on_movement_direction`: right and left step a focused slider by 5 up or
   * down within its range; nothing else is changed. Up and down move the
   * focus along Qt's focus chain, which is not part of this model.
   */
  method OnMovementDirection(direction: UsbController.Direction, focused: Focus)
    requires FocusValid(focused)
    modifies FocusFrame(focused)
    ensures FocusValid(focused)
    ensures focused.FocusSlider? ==>
      focused.slider.minimum == old(focused.slider.minimum) && focused.slider.maximum == old(focused.slider.maximum)
    ensures focused.FocusSlider? && direction == UsbController.Right ==>
      focused.slider.value == Stepped(old(focused.slider.value), focused.slider.minimum, focused.slider.maximum, true)
    ensures focused.FocusSlider? && direction == UsbController.Left ==>
      focused.slider.value == Stepped(old(focused.slider.value), focused.slider.minimum, focused.slider.maximum, false)
    ensures focused.FocusSlider? && direction != UsbController.Right && direction != UsbController.Left ==>
      unchanged(focused.slider)
    ensures focused.FocusCheckBox? ==> unchanged(focused.box)
  {
    if focused.FocusSlider? && (direction == UsbController.Right || direction == UsbController.Left) {
      focused.slider.Step(direction == UsbController.Right);
    }
  }

  /** `on_brightness_increase` / `on_brightness_decrease`: step a focused slider up or down. */
  method OnBrightnessButton(up: bool, focused: Focus)
    requires FocusValid(focused)
    modifies FocusFrame(focused)
    ensures FocusValid(focused)
    ensures focused.FocusSlider? ==>
      focused.slider.minimum == old(focused.slider.minimum) && focused.slider.maximum == old(focused.slider.maximum)
    ensures focused.FocusSlider? ==>
      focused.slider.value == Stepped(old(focused.slider.value), focused.slider.minimum, focused.slider.maximum, up)
    ensures focused.FocusCheckBox? ==> unchanged(focused.box)
  {
    if focused.FocusSlider? {
      focused.slider.Step(up);
    }
  }
}
