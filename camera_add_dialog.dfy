/**
 * The state behind the "Add Camera" dialog: the discovered-camera checkboxes,
 * the manual IP and NDI-name inputs, the two guard flags that keep searches
 * and result handling from overlapping, and the "Searching..." animation.
 * Widgets are reduced to the fields the dialog reads back; the animation
 * timer is an explicit call of `UpdateLoadingAnimation`.
 */
module CameraAddDialog {
  import opened Wrappers
  import Text

  /** One discovered-camera checkbox. */
  datatype Checkbox = Checkbox(text: string, checked: bool, enabled: bool)

  /** `_is_camera_already_added`, over the `ndi_source_name` of each existing camera config. */
  predicate AlreadyAdded(existing: seq<Option<string>>, name: string)
  {
    exists i :: 0 <= i < |existing| && existing[i] == Some(name)
  }

  /** The checkbox a discovered name gets: an already added camera is shown unchecked and disabled. */
  function BoxFor(existing: seq<Option<string>>, name: string): (b: Checkbox)
    ensures b.text == name
    ensures b.checked <==> !AlreadyAdded(existing, name)
    ensures b.enabled <==> !AlreadyAdded(existing, name)
  {
    var added := AlreadyAdded(existing, name);
    Checkbox(name, !added, !added)
  }

  /** The texts of the checked boxes, in order. */
  function CheckedTexts(boxes: seq<Checkbox>): (r: seq<string>)
    ensures |r| <= |boxes|
    ensures forall t :: t in r <==> exists i :: 0 <= i < |boxes| && boxes[i].checked && boxes[i].text == t
  {
    if |boxes| == 0 then []
    else
      var rest := CheckedTexts(boxes[1..]);
      assert forall i :: 0 < i < |boxes| ==> boxes[i] == boxes[1..][i - 1];
      if boxes[0].checked then [boxes[0].text] + rest else rest
  }

  /** The discovered names that are not yet cameras, in order. */
  function NotYetAdded(existing: seq<Option<string>>, names: seq<string>): seq<string>
  {
    if |names| == 0 then []
    else if AlreadyAdded(existing, names[0]) then NotYetAdded(existing, names[1..])
    else [names[0]] + NotYetAdded(existing, names[1..])
  }

  /** Right after discovery, the selection is exactly the discovered names not yet added, in discovery order. */
  lemma {:induction false} DiscoverySelectsNewCameras(existing: seq<Option<string>>, names: seq<string>)
    ensures CheckedTexts(seq(|names|, i requires 0 <= i < |names| => BoxFor(existing, names[i])))
         == NotYetAdded(existing, names)
    decreases |names|
  {
    var boxes := seq(|names|, i requires 0 <= i < |names| => BoxFor(existing, names[i]));
    if |names| > 0 {
      var tail := seq(|names| - 1, i requires 0 <= i < |names| - 1 => BoxFor(existing, names[1..][i]));
      assert boxes[1..] == tail;
      DiscoverySelectsNewCameras(existing, names[1..]);
    }
  }

  const SEARCH_TEXT: string := "Search"
  const SEARCHING_TEXT: string := "Searching"

  /** The label shown for `dots` dots. */
  function Dots(dots: nat): (r: string)
    ensures |r| == dots && forall k :: 0 <= k < dots ==> r[k] == '.'
  {
    if dots == 0 then "" else Dots(dots - 1) + "."
  }

  class Dialog {
    /** `ndi_source_name` of each camera already configured (None when a config has none). */
    var existing: seq<Option<string>>
    var checkboxes: seq<Checkbox>
    var loadingDots: int
    var searchInProgress: bool
    var processingResults: bool
    var timerRunning: bool
    var searchEnabled: bool
    var searchText: string
    var ipChecked: bool
    var ipText: string
    var ndiNameChecked: bool
    var ndiNameText: string

    /**
     * Every discovered box follows the already-added rule, and a disabled box
     * (an already added camera) is never checked.
     */
    ghost predicate Valid()
      reads this
    {
      forall i :: 0 <= i < |checkboxes| ==>
        (checkboxes[i].enabled <==> !AlreadyAdded(existing, checkboxes[i].text)) &&
        (!checkboxes[i].enabled ==> !checkboxes[i].checked)
    }

    constructor(existing: seq<Option<string>>)
      ensures Valid()
      ensures this.existing == existing && checkboxes == [] && loadingDots == 0
      ensures !searchInProgress && !processingResults && !timerRunning
      ensures searchEnabled && searchText == SEARCH_TEXT
      ensures !ipChecked && !ndiNameChecked
    {
      this.existing := existing;
      checkboxes := [];
      loadingDots := 0;
      searchInProgress := false;
      processingResults := false;
      timerRunning := false;
      searchEnabled := true;
      searchText := SEARCH_TEXT;
      ipChecked := false;
      ipText := "";
      ndiNameChecked := false;
      ndiNameText := "";
    }

    /** `_is_camera_already_added`: some existing camera has exactly this NDI name. */
    method IsCameraAlreadyAdded(name: string) returns (added: bool)
      ensures added <==> AlreadyAdded(existing, name)
    {
      var i := 0;
      while i < |existing|
        invariant 0 <= i <= |existing|
        invariant forall k :: 0 <= k < i ==> existing[k] != Some(name)
      {
        if existing[i] == Some(name) {
          return true;
        }
        i := i + 1;
      }
      return false;
    }

    /**
     * `get_selected_ndi_cameras`: the checked discovered names in order, then
     * the trimmed manual NDI name when its box is checked and it is not empty.
     */
    function SelectedNdiCameras(): (r: seq<string>)
      reads this
      ensures |r| == |CheckedTexts(checkboxes)| + (if ndiNameChecked && Text.Strip(ndiNameText) != "" then 1 else 0)
      ensures r[..|CheckedTexts(checkboxes)|] == CheckedTexts(checkboxes)
      ensures |r| > |CheckedTexts(checkboxes)| ==> r[|r| - 1] == Text.Strip(ndiNameText)
    {
      var manual := Text.Strip(ndiNameText);
      CheckedTexts(checkboxes) + (if ndiNameChecked && manual != "" then [manual] else [])
    }

    /**
     * `get_ip_address`: the trimmed manual IP when its box is checked and the
     * text has exactly three dots; nothing otherwise.
     */
    function IpAddress(): (r: Option<string>)
      reads this
      ensures r.Some? <==> ipChecked && Text.CountChar(Text.Strip(ipText), '.') == 3
      ensures r.Some? ==> r.value == Text.Strip(ipText) && '.' in r.value
    {
      var ip := Text.Strip(ipText);
      if ipChecked && Text.CountChar(ip, '.') == 3 then Some(ip) else None
    }

    /** In a valid dialog no already added camera is among the selected discovered names. */
    lemma SelectionExcludesExisting()
      requires Valid()
      ensures forall t :: t in CheckedTexts(checkboxes) ==> !AlreadyAdded(existing, t)
    {
    }

    /**
     * `start_search`: ignored while a search is in progress or the previous
     * discovery thread still runs; otherwise marks the search as in progress,
     * disables the button and starts the animation at one dot.
     */
    method StartSearch(threadRunning: bool) returns (started: bool)
      modifies this`searchInProgress, this`searchEnabled, this`searchText, this`loadingDots, this`timerRunning
      ensures started <==> !old(searchInProgress) && !threadRunning
      ensures !started ==> unchanged(this)
      ensures started ==> (searchInProgress && !searchEnabled && searchText == SEARCHING_TEXT + "."
                           && loadingDots == 1 && timerRunning)
    {
      if searchInProgress || threadRunning {
        return false;
      }
      searchInProgress := true;
      searchEnabled := false;
      searchText := SEARCHING_TEXT + ".";
      loadingDots := 1;
      timerRunning := true;
      started := true;
    }

    /** `_update_loading_animation`: one more dot, wrapping from three back to none. */
    method UpdateLoadingAnimation()
      modifies this`loadingDots, this`searchText
      ensures loadingDots == (old(loadingDots) + 1) % 4
      ensures 0 <= loadingDots < 4
      ensures searchText == SEARCHING_TEXT + Dots(loadingDots)
    {
      loadingDots := (loadingDots + 1) % 4;
      searchText := SEARCHING_TEXT + Dots(loadingDots);
    }

    /**
     * `_on_cameras_discovered`: ignored while results are being processed;
     * otherwise replaces the boxes by one per discovered name (already added
     * cameras unchecked and disabled, the others checked), re-enables the
     * button and clears both guard flags.
     */
    method OnCamerasDiscovered(names: seq<string>) returns (handled: bool)
      modifies this`checkboxes, this`searchInProgress, this`processingResults, this`timerRunning,
        this`searchEnabled, this`searchText
      ensures handled <==> !old(processingResults)
      ensures !handled ==> unchanged(this)
      ensures handled ==> (!searchInProgress && !processingResults && !timerRunning
                           && searchEnabled && searchText == SEARCH_TEXT)
      ensures handled ==> (|checkboxes| == |names|
                           && forall i :: 0 <= i < |names| ==> checkboxes[i] == BoxFor(existing, names[i]))
      ensures handled ==> Valid()
      ensures handled ==> CheckedTexts(checkboxes) == NotYetAdded(existing, names)
    {
      if processingResults {
        return false;
      }
      processingResults := true;
      var ex := existing;
      var boxes := [];
      var k := 0;
      while k < |names|
        invariant 0 <= k <= |names|
        invariant |boxes| == k
        invariant forall i :: 0 <= i < k ==> boxes[i] == BoxFor(ex, names[i])
      {
        var added := IsCameraAlreadyAdded(names[k]);
        boxes := boxes + [Checkbox(names[k], !added, !added)];
        k := k + 1;
      }
      assert boxes == seq(|names|, i requires 0 <= i < |names| => BoxFor(ex, names[i]));
      DiscoverySelectsNewCameras(ex, names);
      checkboxes := boxes;
      timerRunning := false;
      searchEnabled := true;
      searchText := SEARCH_TEXT;
      searchInProgress := false;
      processingResults := false;
      handled := true;
    }

    /** `_on_discovery_error`: clears the search flag, stops the animation and re-enables the button. */
    method OnDiscoveryError()
      modifies this`searchInProgress, this`timerRunning, this`searchEnabled, this`searchText
      ensures !searchInProgress && !timerRunning && searchEnabled && searchText == SEARCH_TEXT
    {
      searchInProgress := false;
      timerRunning := false;
      searchEnabled := true;
      searchText := SEARCH_TEXT;
    }

    /** The user clicks discovered box `i`: a disabled box does not react. */
    method Toggle(i: nat)
      requires i < |checkboxes|
      modifies this`checkboxes
      ensures |checkboxes| == |old(checkboxes)|
      ensures checkboxes[i].checked == (if old(checkboxes[i].enabled) then !old(checkboxes[i].checked) else old(checkboxes[i].checked))
      ensures forall j :: 0 <= j < |checkboxes| && j != i ==> checkboxes[j] == old(checkboxes[j])
      ensures checkboxes[i].text == old(checkboxes[i].text) && checkboxes[i].enabled == old(checkboxes[i].enabled)
      ensures old(Valid()) ==> Valid()
    {
      if checkboxes[i].enabled {
        checkboxes := checkboxes[i := checkboxes[i].(checked := !checkboxes[i].checked)];
      }
    }
  }

  /**
   * The guards at work: a search started from an idle dialog blocks a second
   * start until its results are handled, after which a new search can start.
   */
  method SearchGuardScenario(existing: seq<Option<string>>, names: seq<string>)
    returns (first: bool, second: bool, third: bool)
    ensures first && !second && third
  {
    var d := new Dialog(existing);
    first := d.StartSearch(false);
    second := d.StartSearch(false);
    var handled := d.OnCamerasDiscovered(names);
    third := d.StartSearch(false);
  }
}
