/**
 * The persistent configuration: the camera list with its position numbers,
 * each camera's preset list, and a few preferences. JSON loading and saving
 * are not modelled (every mutation would save afterwards); the fresh camera
 * id that `uuid.uuid4()` would draw is a parameter.
 */
module ConfigManager {
  import opened Wrappers
  import Text
  import Seqs

  const VISCA_DEFAULT_PORT: int := 52381
  const VIDEO_DEFAULT_WIDTH: int := 512
  const VIDEO_DEFAULT_HEIGHT: int := 288
  const DEFAULT_FRAME_SKIP: int := 6

  datatype Preset = Preset(name: string, pan: int, tilt: int, zoom: int)

  /**
   * One camera entry. The two auto-pan preset names are keys that only
   * `update_camera` adds, so a camera may lack them (None).
   */
  datatype Camera = Camera(id: string, ndiSourceName: string, viscaIp: string, viscaPort: int,
                           videoSize: seq<int>, position: int, presets: seq<Preset>,
                           autoPanLeftPreset: Option<string>, autoPanRightPreset: Option<string>)

  /** The keyword arguments the application passes to `update_camera`; a field left as None is kept. */
  datatype CameraPatch = CameraPatch(ndiSourceName: Option<string>, viscaIp: Option<string>,
                                     viscaPort: Option<int>, videoSize: Option<seq<int>>,
                                     autoPanLeftPreset: Option<string>, autoPanRightPreset: Option<string>)

  /** The preferences that have getters with defaults (a missing key reads as the default). */
  datatype Preferences = Preferences(videoSizeDefault: seq<int>, videoFrameSkip: Option<int>,
                                     ndiVideoEnabled: Option<bool>, singleInstanceMode: Option<bool>)

  // ---------------------------------------------------------------------
  // Camera list functions

  /** Index of the first camera with this id, as the source's `for cam ...: if cam["id"] == ...` loops find it. */
  function FirstWithId(cams: seq<Camera>, id: string): (r: Option<nat>)
    ensures r.Some? ==> r.value < |cams| && cams[r.value].id == id
    ensures r.Some? ==> forall k :: 0 <= k < r.value ==> cams[k].id != id
    ensures r.None? <==> forall k :: 0 <= k < |cams| ==> cams[k].id != id
  {
    if |cams| == 0 then None
    else if cams[0].id == id then Some(0)
    else
      var r := FirstWithId(cams[1..], id);
      if r.Some? then Some(r.value + 1) else None
  }

  /** The list without the cameras that have this id, order kept. */
  function WithoutId(cams: seq<Camera>, id: string): (r: seq<Camera>)
    ensures |r| <= |cams|
    ensures forall c :: c in r <==> c in cams && c.id != id
  {
    if |cams| == 0 then []
    else if cams[0].id == id then WithoutId(cams[1..], id)
    else [cams[0]] + WithoutId(cams[1..], id)
  }

  /** Positions renumbered 0..n-1 in list order. */
  function Renumbered(cams: seq<Camera>): (r: seq<Camera>)
    ensures |r| == |cams| && PositionsAreIndices(r)
    ensures forall k :: 0 <= k < |r| ==> r[k] == cams[k].(position := k)
  {
    seq(|cams|, k requires 0 <= k < |cams| => cams[k].(position := k))
  }

  predicate PositionsAreIndices(cams: seq<Camera>)
  {
    forall k :: 0 <= k < |cams| ==> cams[k].position == k
  }

  /** The camera the id maps to in `{cam["id"]: cam for cam in cameras}`: the last one with that id. */
  function LastWithId(cams: seq<Camera>, id: string): (r: Option<Camera>)
    ensures r.Some? ==> r.value in cams && r.value.id == id
    ensures r.None? <==> forall k :: 0 <= k < |cams| ==> cams[k].id != id
  {
    if |cams| == 0 then None
    else if cams[|cams| - 1].id == id then Some(cams[|cams| - 1])
    else LastWithId(cams[..|cams| - 1], id)
  }

  /** The cameras of `reorder_cameras` in the order of the id list, before renumbering; unknown ids are skipped. */
  function Picked(cams: seq<Camera>, ids: seq<string>): (r: seq<Camera>)
    ensures |r| <= |ids|
    ensures forall c :: c in r ==> c in cams && c.id in ids
  {
    if |ids| == 0 then []
    else
      var rest := Picked(cams, ids[1..]);
      match LastWithId(cams, ids[0])
      case Some(c) => [c] + rest
      case None => rest
  }

  /** The last index below `bound` holding a camera with this id. */
  function LastIndexBelow(cams: seq<Camera>, id: string, bound: nat): (r: Option<nat>)
    requires bound <= |cams|
    ensures r.Some? ==> r.value < bound && cams[r.value].id == id
    ensures r.Some? ==> forall j :: r.value < j < bound ==> cams[j].id != id
  {
    if bound == 0 then None
    else if cams[bound - 1].id == id then Some(bound - 1)
    else LastIndexBelow(cams, id, bound - 1)
  }

  /**
   * `reorder_cameras` renumbers by assigning into the camera dicts, and an id
   * listed twice puts the same dict in the list twice; so every entry ends
   * with the LAST index its camera occupies.
   */
  function AliasedPositions(picked: seq<Camera>): (r: seq<Camera>)
    ensures |r| == |picked|
  {
    seq(|picked|, k requires 0 <= k < |picked| => Renumbering(picked, k, |picked|))
  }

  /** Entry `k` once the renumbering has visited the indices below `bound`. */
  function Renumbering(picked: seq<Camera>, k: nat, bound: nat): Camera
    requires k < |picked| && bound <= |picked|
  {
    match LastIndexBelow(picked, picked[k].id, bound)
    case Some(j) => picked[k].(position := j)
    case None => picked[k]
  }

  predicate DistinctIds(cams: seq<Camera>)
  {
    forall i, j :: 0 <= i < j < |cams| ==> cams[i].id != cams[j].id
  }

  predicate DistinctStrings(ids: seq<string>)
  {
    forall i, j :: 0 <= i < j < |ids| ==> ids[i] != ids[j]
  }

  /** With distinct ids in the list, a reorder lists each camera once, numbered 0..n-1. */
  lemma ReorderWithDistinctIds(cams: seq<Camera>, ids: seq<string>)
    requires DistinctStrings(ids)
    ensures DistinctIds(Picked(cams, ids))
    ensures AliasedPositions(Picked(cams, ids)) == Renumbered(Picked(cams, ids))
  {
    PickedDistinct(cams, ids);
    var p := Picked(cams, ids);
    forall k | 0 <= k < |p|
      ensures LastIndexBelow(p, p[k].id, |p|) == Some(k)
    {
      LastIndexOfDistinct(p, k, |p|);
    }
  }

  lemma {:induction false} PickedDistinct(cams: seq<Camera>, ids: seq<string>)
    requires DistinctStrings(ids)
    ensures DistinctIds(Picked(cams, ids))
    decreases |ids|
  {
    if |ids| > 0 {
      assert DistinctStrings(ids[1..]);
      PickedDistinct(cams, ids[1..]);
      var rest := Picked(cams, ids[1..]);
      match LastWithId(cams, ids[0])
      case None =>
      case Some(c) =>
        assert ids[0] !in ids[1..];
        ConsDistinct(c, rest);
    }
  }

  lemma ConsDistinct(c: Camera, rest: seq<Camera>)
    requires DistinctIds(rest) && forall x :: x in rest ==> x.id != c.id
    ensures DistinctIds([c] + rest)
  {
    var p := [c] + rest;
    forall i, j | 0 <= i < j < |p|
      ensures p[i].id != p[j].id
    {
      assert p[j] == rest[j - 1];
      if i > 0 {
        assert p[i] == rest[i - 1];
      }
    }
  }

  lemma {:induction false} LastIndexOfDistinct(p: seq<Camera>, k: nat, bound: nat)
    requires DistinctIds(p) && k < bound <= |p|
    ensures LastIndexBelow(p, p[k].id, bound) == Some(k)
    decreases bound
  {
    if bound - 1 != k {
      assert p[bound - 1].id != p[k].id;
      LastIndexOfDistinct(p, k, bound - 1);
    }
  }

  // ---------------------------------------------------------------------
  // get_cameras: Python's `sorted` by position, which is stable

  predicate SortedByPosition(cams: seq<Camera>)
  {
    forall i, j :: 0 <= i < j < |cams| ==> cams[i].position <= cams[j].position
  }

  /** Insert `c` before the first camera whose position is not below it. */
  function InsertByPosition(c: Camera, sorted: seq<Camera>): (r: seq<Camera>)
    requires SortedByPosition(sorted)
    ensures SortedByPosition(r)
    ensures multiset(r) == multiset(sorted) + multiset{c}
    ensures forall k :: 0 <= k < |r| ==> r[k] == c || r[k] in sorted
  {
    if |sorted| == 0 then [c]
    else if c.position <= sorted[0].position then [c] + sorted
    else
      var rest := InsertByPosition(c, sorted[1..]);
      assert forall k :: 0 <= k < |rest| ==> sorted[0].position <= rest[k].position by {
        forall k | 0 <= k < |rest|
          ensures sorted[0].position <= rest[k].position
        {
          if rest[k] != c {
            TailNotBelowHead(sorted, rest[k]);
          }
        }
      }
      ConsSorted(sorted[0], rest);
      assert sorted == [sorted[0]] + sorted[1..];
      [sorted[0]] + rest
  }

  lemma TailNotBelowHead(sorted: seq<Camera>, x: Camera)
    requires SortedByPosition(sorted) && |sorted| > 0 && x in sorted[1..]
    ensures sorted[0].position <= x.position
  {
    var i :| 0 <= i < |sorted[1..]| && sorted[1..][i] == x;
    assert sorted[i + 1] == x;
  }

  lemma ConsSorted(x: Camera, rest: seq<Camera>)
    requires SortedByPosition(rest)
    requires forall k :: 0 <= k < |rest| ==> x.position <= rest[k].position
    ensures SortedByPosition([x] + rest)
  {
    var r := [x] + rest;
    forall i, j | 0 <= i < j < |r|
      ensures r[i].position <= r[j].position
    {
      assert r[j] == rest[j - 1];
      if i > 0 {
        assert r[i] == rest[i - 1];
      }
    }
  }

  function SortByPosition(cams: seq<Camera>): (r: seq<Camera>)
    ensures SortedByPosition(r)
    ensures multiset(r) == multiset(cams)
  {
    if |cams| == 0 then []
    else
      assert cams == [cams[0]] + cams[1..];
      InsertByPosition(cams[0], SortByPosition(cams[1..]))
  }

  /** Sorting a list already in position order returns it as it is (stability). */
  lemma {:induction false} SortKeepsSortedList(cams: seq<Camera>)
    requires SortedByPosition(cams)
    ensures SortByPosition(cams) == cams
    decreases |cams|
  {
    if |cams| > 0 {
      SortKeepsSortedList(cams[1..]);
    }
  }

  /** In a configuration whose positions are the list indices, `get_cameras` is the list itself. */
  lemma GetCamerasIsListOrder(cams: seq<Camera>)
    requires PositionsAreIndices(cams)
    ensures SortByPosition(cams) == cams
  {
    SortKeepsSortedList(cams);
  }

  // ---------------------------------------------------------------------
  // Preset list functions

  function FirstPresetNamed(presets: seq<Preset>, name: string): (r: Option<nat>)
    ensures r.Some? ==> r.value < |presets| && presets[r.value].name == name
    ensures r.Some? ==> forall k :: 0 <= k < r.value ==> presets[k].name != name
    ensures r.None? <==> forall k :: 0 <= k < |presets| ==> presets[k].name != name
  {
    if |presets| == 0 then None
    else if presets[0].name == name then Some(0)
    else
      var r := FirstPresetNamed(presets[1..], name);
      if r.Some? then Some(r.value + 1) else None
  }

  function WithoutPresetNamed(presets: seq<Preset>, name: string): (r: seq<Preset>)
    ensures |r| <= |presets|
    ensures forall p :: p in r <==> p in presets && p.name != name
  {
    if |presets| == 0 then []
    else if presets[0].name == name then WithoutPresetNamed(presets[1..], name)
    else [presets[0]] + WithoutPresetNamed(presets[1..], name)
  }

  /** `str.split("(")[0].strip()`: the NDI source name without its "(address)" part. */
  function BaseName(ndiName: string): (r: string)
    ensures '(' !in r
    ensures Text.Strip(r) == r
  {
    var before := Text.BeforeFirst(ndiName, '(');
    Text.StripKeepsOut(before, '(');
    Text.StripIdempotent(before);
    Text.Strip(before)
  }

  /** The base name of every camera, in list order. */
  function BaseNames(cams: seq<Camera>): (r: seq<string>)
    ensures |r| == |cams| && forall k :: 0 <= k < |cams| ==> r[k] == BaseName(cams[k].ndiSourceName)
  {
    seq(|cams|, k requires 0 <= k < |cams| => BaseName(cams[k].ndiSourceName))
  }

  /** Index of the first occurrence of `x`. */
  function FirstIndexOf(xs: seq<string>, x: string): (r: Option<nat>)
    ensures r.Some? ==> r.value < |xs| && xs[r.value] == x
    ensures r.Some? ==> forall k :: 0 <= k < r.value ==> xs[k] != x
    ensures r.None? <==> x !in xs
  {
    if |xs| == 0 then None
    else if xs[0] == x then Some(0)
    else
      var r := FirstIndexOf(xs[1..], x);
      if r.Some? then Some(r.value + 1) else None
  }

  lemma FirstIndexAt(xs: seq<string>, x: string, i: nat)
    requires i < |xs| && xs[i] == x && forall k :: 0 <= k < i ==> xs[k] != x
    ensures FirstIndexOf(xs, x) == Some(i)
  {
  }

  /** A name with a different "(address)" part still finds the same camera. */
  lemma BaseNameIgnoresAddress(name: string, a: string, b: string)
    requires '(' !in name
    ensures BaseName(name + "(" + a) == BaseName(name + "(" + b) == Text.Strip(name)
  {
    BeforeParen(name, a);
    BeforeParen(name, b);
  }

  lemma BeforeParen(name: string, a: string)
    requires '(' !in name
    ensures Text.BeforeFirst(name + "(" + a, '(') == name
  {
    var s := name + "(" + a;
    var r := Text.BeforeFirst(s, '(');
    assert s[|name|] == '(';
    assert s[..|name|] == name;
  }

  function ApplyPatch(c: Camera, p: CameraPatch): Camera
  {
    c.(ndiSourceName := p.ndiSourceName.GetOr(c.ndiSourceName),
       viscaIp := p.viscaIp.GetOr(c.viscaIp),
       viscaPort := p.viscaPort.GetOr(c.viscaPort),
       videoSize := p.videoSize.GetOr(c.videoSize),
       autoPanLeftPreset := if p.autoPanLeftPreset.Some? then p.autoPanLeftPreset else c.autoPanLeftPreset,
       autoPanRightPreset := if p.autoPanRightPreset.Some? then p.autoPanRightPreset else c.autoPanRightPreset)
  }

  /** The saved auto-pan selections as the camera tile reads them: `get(key, "")`. */
  function SavedAutoPanPresets(c: Camera): (r: (string, string))
    ensures c.autoPanLeftPreset.Some? ==> r.0 == c.autoPanLeftPreset.value
    ensures c.autoPanRightPreset.Some? ==> r.1 == c.autoPanRightPreset.value
    ensures c.autoPanLeftPreset.None? ==> r.0 == ""
    ensures c.autoPanRightPreset.None? ==> r.1 == ""
  {
    (c.autoPanLeftPreset.GetOr(""), c.autoPanRightPreset.GetOr(""))
  }

  /**
   * Saving the two auto-pan selections and reading them back gives them
   * again, and the rest of the camera entry is untouched.
   */
  lemma AutoPanSelectionRestored(c: Camera, left: string, right: string)
    ensures var d := ApplyPatch(c, CameraPatch(None, None, None, None, Some(left), Some(right)));
            SavedAutoPanPresets(d) == (left, right) && d.(autoPanLeftPreset := c.autoPanLeftPreset,
                                                        autoPanRightPreset := c.autoPanRightPreset) == c
  {
  }

  // ---------------------------------------------------------------------

  class Config {
    var cameras: seq<Camera>
    var prefs: Preferences
    var usbDeviceName: string

    /** The default schema: no cameras, 512x288 default video size, frame skip 6. */
    constructor()
      ensures cameras == [] && usbDeviceName == ""
      ensures prefs == Preferences([VIDEO_DEFAULT_WIDTH, VIDEO_DEFAULT_HEIGHT], Some(DEFAULT_FRAME_SKIP), Some(true), Some(true))
    {
      cameras := [];
      prefs := Preferences([VIDEO_DEFAULT_WIDTH, VIDEO_DEFAULT_HEIGHT], Some(DEFAULT_FRAME_SKIP), Some(true), Some(true));
      usbDeviceName := "";
    }

    /** The search loop shared by the camera methods: the first camera with that id. */
    method IndexOfCamera(id: string) returns (r: Option<nat>)
      ensures r == FirstWithId(cameras, id)
    {
      var i := 0;
      while i < |cameras|
        invariant 0 <= i <= |cameras|
        invariant forall k :: 0 <= k < i ==> cameras[k].id != id
      {
        if cameras[i].id == id {
          return Some(i);
        }
        i := i + 1;
      }
      return None;
    }

    /** The preset search loop: the first preset with that name. */
    static method IndexOfPreset(presets: seq<Preset>, name: string) returns (r: Option<nat>)
      ensures r == FirstPresetNamed(presets, name)
    {
      var i := 0;
      while i < |presets|
        invariant 0 <= i <= |presets|
        invariant forall k :: 0 <= k < i ==> presets[k].name != name
      {
        if presets[i].name == name {
          return Some(i);
        }
        i := i + 1;
      }
      return None;
    }

    /**
     * `add_camera`: append a camera at position = previous count, with no
     * presets, the default VISCA port and the default video size when not given.
     */
    method AddCamera(freshId: string, ndiSourceName: string, viscaIp: string,
                     viscaPort: Option<int>, videoSize: Option<seq<int>>) returns (id: string)
      modifies this`cameras
      ensures id == freshId
      ensures cameras == old(cameras) + [Camera(freshId, ndiSourceName, viscaIp, viscaPort.GetOr(VISCA_DEFAULT_PORT),
                                                videoSize.GetOr(prefs.videoSizeDefault), |old(cameras)|, [], None, None)]
      ensures old(PositionsAreIndices(cameras)) ==> PositionsAreIndices(cameras)
    {
      var size := videoSize.GetOr(prefs.videoSizeDefault);
      var port := viscaPort.GetOr(VISCA_DEFAULT_PORT);
      cameras := cameras + [Camera(freshId, ndiSourceName, viscaIp, port, size, |cameras|, [], None, None)];
      id := freshId;
    }

    /** `remove_camera`: drop every camera with that id, then renumber 0..n-1. */
    method RemoveCamera(id: string)
      modifies this`cameras
      ensures cameras == Renumbered(WithoutId(old(cameras), id))
      ensures forall k :: 0 <= k < |cameras| ==> cameras[k].id != id
    {
      var kept := WithoutId(cameras, id);
      var i := 0;
      while i < |kept|
        invariant 0 <= i <= |kept| && |kept| == |WithoutId(old(cameras), id)|
        invariant forall k :: 0 <= k < |kept| ==>
          kept[k] == (if k < i then WithoutId(old(cameras), id)[k].(position := k) else WithoutId(old(cameras), id)[k])
      {
        kept := kept[i := kept[i].(position := i)];
        i := i + 1;
      }
      cameras := kept;
      forall k | 0 <= k < |cameras|
        ensures cameras[k].id != id
      {
        assert WithoutId(old(cameras), id)[k] in WithoutId(old(cameras), id);
      }
    }

    /**
     * `reorder_cameras`: the cameras in the order of the id list (unknown ids
     * skipped, unlisted cameras dropped), each numbered by the last index its
     * camera object occupies.
     */
    method ReorderCameras(ids: seq<string>)
      modifies this`cameras
      ensures cameras == AliasedPositions(Picked(old(cameras), ids))
      ensures DistinctStrings(ids) ==> cameras == Renumbered(Picked(old(cameras), ids))
    {
      var picked := Picked(cameras, ids);
      cameras := RenumberAliased(picked);
      if DistinctStrings(ids) {
        ReorderWithDistinctIds(old(cameras), ids);
      }
    }

    /** The renumbering loop of `reorder_cameras`: `cam["position"] = i` reaches every entry sharing that camera. */
    static method RenumberAliased(picked: seq<Camera>) returns (p: seq<Camera>)
      ensures p == AliasedPositions(picked)
    {
      p := picked;
      var i := 0;
      while i < |p|
        invariant 0 <= i <= |p| == |picked|
        invariant forall k :: 0 <= k < |p| ==> p[k] == Renumbering(picked, k, i)
      {
        var target := p[i].id;
        p := seq(|p|, k requires 0 <= k < |p| => if p[k].id == target then p[k].(position := i) else p[k]);
        i := i + 1;
      }
    }

    /** `update_camera`: the first camera with that id takes the given fields. */
    method UpdateCamera(id: string, patch: CameraPatch)
      modifies this`cameras
      ensures match FirstWithId(old(cameras), id)
              case Some(i) => cameras == old(cameras)[i := ApplyPatch(old(cameras)[i], patch)]
              case None => cameras == old(cameras)
    {
      var i := IndexOfCamera(id);
      if i.Some? {
        cameras := cameras[i.value := ApplyPatch(cameras[i.value], patch)];
      }
    }

    /** `get_camera`: the first camera with that id. */
    function GetCamera(id: string): (r: Option<Camera>)
      reads this
      ensures r.Some? ==> r.value in cameras && r.value.id == id
      ensures r.None? <==> forall k :: 0 <= k < |cameras| ==> cameras[k].id != id
    {
      match FirstWithId(cameras, id)
      case Some(i) => Some(cameras[i])
      case None => None
    }

    /**
     * `get_camera_by_ndi_name`: the first camera whose base name (before "(",
     * trimmed) equals the searched one; its stored name becomes the searched
     * full name.
     */
    method GetCameraByNdiName(ndiName: string) returns (r: Option<Camera>)
      modifies this`cameras
      ensures match FirstIndexOf(BaseNames(old(cameras)), BaseName(ndiName))
              case Some(i) => r == Some(old(cameras)[i].(ndiSourceName := ndiName))
                              && cameras == old(cameras)[i := r.value]
              case None => r == None && cameras == old(cameras)
    {
      var i := IndexOfBaseName(BaseName(ndiName));
      if i.None? {
        return None;
      }
      var updated := cameras[i.value].(ndiSourceName := ndiName);
      cameras := cameras[i.value := updated];
      return Some(updated);
    }

    /** The search loop of `get_camera_by_ndi_name`. */
    method IndexOfBaseName(searchBase: string) returns (r: Option<nat>)
      ensures r == FirstIndexOf(BaseNames(cameras), searchBase)
    {
      var bases := BaseNames(cameras);
      var i := 0;
      while i < |bases|
        invariant 0 <= i <= |bases|
        invariant forall k :: 0 <= k < i ==> bases[k] != searchBase
      {
        if bases[i] == searchBase {
          FirstIndexAt(bases, searchBase, i);
          return Some(i);
        }
        i := i + 1;
      }
      return None;
    }

    /** `update_camera_ndi_name`. */
    method UpdateCameraNdiName(id: string, ndiName: string)
      modifies this`cameras
      ensures match FirstWithId(old(cameras), id)
              case Some(i) => cameras == old(cameras)[i := old(cameras)[i].(ndiSourceName := ndiName)]
              case None => cameras == old(cameras)
    {
      var i := IndexOfCamera(id);
      if i.Some? {
        cameras := cameras[i.value := cameras[i.value].(ndiSourceName := ndiName)];
      }
    }

    /** `add_preset`: append to the first camera with that id. */
    method AddPreset(id: string, name: string, pan: int, tilt: int, zoom: int)
      modifies this`cameras
      ensures match FirstWithId(old(cameras), id)
              case Some(i) => cameras == old(cameras)[i := old(cameras)[i].(presets := old(cameras)[i].presets + [Preset(name, pan, tilt, zoom)])]
              case None => cameras == old(cameras)
    {
      var i := IndexOfCamera(id);
      if i.Some? {
        var c := cameras[i.value];
        cameras := cameras[i.value := c.(presets := c.presets + [Preset(name, pan, tilt, zoom)])];
      }
    }

    /** `remove_preset`: every preset with that name goes, from that camera only. */
    method RemovePreset(id: string, name: string)
      modifies this`cameras
      ensures match FirstWithId(old(cameras), id)
              case Some(i) => cameras == old(cameras)[i := old(cameras)[i].(presets := WithoutPresetNamed(old(cameras)[i].presets, name))]
              case None => cameras == old(cameras)
    {
      var i := IndexOfCamera(id);
      if i.Some? {
        var c := cameras[i.value];
        cameras := cameras[i.value := c.(presets := WithoutPresetNamed(c.presets, name))];
      }
    }

    /** `update_preset_name`: rename the first preset with the old name; false when there is none. */
    method UpdatePresetName(id: string, oldName: string, newName: string) returns (ok: bool)
      modifies this`cameras
      ensures match FirstWithId(old(cameras), id)
              case None => !ok && cameras == old(cameras)
              case Some(i) =>
                match FirstPresetNamed(old(cameras)[i].presets, oldName)
                case None => !ok && cameras == old(cameras)
                case Some(j) => ok && cameras == old(cameras)[i := old(cameras)[i].(presets :=
                                  old(cameras)[i].presets[j := old(cameras)[i].presets[j].(name := newName)])]
    {
      var i := IndexOfCamera(id);
      if i.None? {
        return false;
      }
      var c := cameras[i.value];
      var j := IndexOfPreset(c.presets, oldName);
      if j.None? {
        return false;
      }
      cameras := cameras[i.value := c.(presets := c.presets[j.value := c.presets[j.value].(name := newName)])];
      ok := true;
    }

    /** `update_preset`: new pan, tilt and zoom for the first preset with that name; false when there is none. */
    method UpdatePreset(id: string, name: string, pan: int, tilt: int, zoom: int) returns (ok: bool)
      modifies this`cameras
      ensures match FirstWithId(old(cameras), id)
              case None => !ok && cameras == old(cameras)
              case Some(i) =>
                match FirstPresetNamed(old(cameras)[i].presets, name)
                case None => !ok && cameras == old(cameras)
                case Some(j) => ok && cameras == old(cameras)[i := old(cameras)[i].(presets :=
                                  old(cameras)[i].presets[j := Preset(name, pan, tilt, zoom)])]
    {
      var i := IndexOfCamera(id);
      if i.None? {
        return false;
      }
      var c := cameras[i.value];
      var j := IndexOfPreset(c.presets, name);
      if j.None? {
        return false;
      }
      cameras := cameras[i.value := c.(presets := c.presets[j.value := Preset(name, pan, tilt, zoom)])];
      ok := true;
    }

    /**
     * `reorder_preset`: swap the first preset with that name with its
     * neighbour above ("up") or below ("down"); false, and no change, at a
     * boundary, for an unknown name, camera or direction.
     */
    method ReorderPreset(id: string, name: string, direction: string) returns (ok: bool)
      modifies this`cameras
      ensures |cameras| == |old(cameras)|
      ensures forall k :: 0 <= k < |cameras| ==> multiset(cameras[k].presets) == multiset(old(cameras)[k].presets)
      ensures !ok ==> cameras == old(cameras)
      ensures match FirstWithId(old(cameras), id)
              case None => !ok
              case Some(i) =>
                var ps := old(cameras)[i].presets;
                match FirstPresetNamed(ps, name)
                case None => !ok
                case Some(j) =>
                  (ok <==> (direction == "up" && j > 0) || (direction == "down" && j < |ps| - 1))
                  && (ok && direction == "up" ==> cameras == old(cameras)[i := old(cameras)[i].(presets := Seqs.Swap(ps, j, j - 1))])
                  && (ok && direction == "down" ==> cameras == old(cameras)[i := old(cameras)[i].(presets := Seqs.Swap(ps, j, j + 1))])
    {
      var i := IndexOfCamera(id);
      if i.None? {
        return false;
      }
      var c := cameras[i.value];
      var j := IndexOfPreset(c.presets, name);
      if j.None? {
        return false;
      }
      if direction == "up" && j.value > 0 {
        cameras := cameras[i.value := c.(presets := Seqs.Swap(c.presets, j.value, j.value - 1))];
        return true;
      }
      if direction == "down" && j.value < |c.presets| - 1 {
        cameras := cameras[i.value := c.(presets := Seqs.Swap(c.presets, j.value, j.value + 1))];
        return true;
      }
      return false;
    }

    /** `get_presets`: the presets of the first camera with that id, or none. */
    function GetPresets(id: string): (r: seq<Preset>)
      reads this
      ensures FirstWithId(cameras, id).None? ==> r == []
      ensures FirstWithId(cameras, id).Some? ==> r == cameras[FirstWithId(cameras, id).value].presets
    {
      match GetCamera(id)
      case Some(c) => c.presets
      case None => []
    }

    /** `get_cameras`: the cameras sorted by position. */
    function GetCameras(): (r: seq<Camera>)
      reads this
      ensures SortedByPosition(r) && multiset(r) == multiset(cameras)
    {
      SortByPosition(cameras)
    }

    method SetDefaultVideoSize(width: int, height: int)
      modifies this`prefs
      ensures prefs == old(prefs).(videoSizeDefault := [width, height])
    {
      prefs := prefs.(videoSizeDefault := [width, height]);
    }

    method SetVideoFrameSkip(skip: int)
      modifies this`prefs
      ensures prefs == old(prefs).(videoFrameSkip := Some(skip))
    {
      prefs := prefs.(videoFrameSkip := Some(skip));
    }

    method SetNdiVideoEnabled(enabled: bool)
      modifies this`prefs
      ensures prefs == old(prefs).(ndiVideoEnabled := Some(enabled))
    {
      prefs := prefs.(ndiVideoEnabled := Some(enabled));
    }

    method SetSingleInstanceMode(enabled: bool)
      modifies this`prefs
      ensures prefs == old(prefs).(singleInstanceMode := Some(enabled))
    {
      prefs := prefs.(singleInstanceMode := Some(enabled));
    }

    method SetUsbControllerName(name: string)
      modifies this`usbDeviceName
      ensures usbDeviceName == name
    {
      usbDeviceName := name;
    }
  }

  /** `get_video_frame_skip`: the stored value, 6 when the key is missing. */
  function VideoFrameSkip(p: Preferences): (r: int)
    ensures p.videoFrameSkip.Some? ==> r == p.videoFrameSkip.value
    ensures p.videoFrameSkip.None? ==> r == DEFAULT_FRAME_SKIP
  {
    p.videoFrameSkip.GetOr(DEFAULT_FRAME_SKIP)
  }

  /** `get_ndi_video_enabled` and `get_single_instance_mode`: the stored flag, true when missing. */
  function FlagOrTrue(f: Option<bool>): (r: bool)
    ensures r <==> f != Some(false)
  {
    f.GetOr(true)
  }

  /** Setting then getting a preference gives back what was set. */
  method PreferenceRoundTrip(c: Config, skip: int, enabled: bool) returns (readSkip: int, readEnabled: bool)
    modifies c`prefs
    ensures readSkip == skip && readEnabled == enabled
  {
    c.SetVideoFrameSkip(skip);
    c.SetNdiVideoEnabled(enabled);
    readSkip := VideoFrameSkip(c.prefs);
    readEnabled := FlagOrTrue(c.prefs.ndiVideoEnabled);
  }

  /**
   * The position invariant over a sequence of list edits: adding and
   * removing cameras keeps positions equal to list indices, so `get_cameras`
   * returns the list in its own order.
   */
  method PositionsStayIndices(c: Config, freshId: string, removeId: string) returns (listed: seq<Camera>)
    requires PositionsAreIndices(c.cameras)
    modifies c`cameras
    ensures PositionsAreIndices(c.cameras) && listed == c.cameras
  {
    var _ := c.AddCamera(freshId, "", "", None, None);
    c.RemoveCamera(removeId);
    GetCamerasIsListOrder(c.cameras);
    listed := c.GetCameras();
  }
}
