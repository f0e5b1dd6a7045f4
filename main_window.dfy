/**
 * The main window's camera strip: the ordered camera tiles, which one is
 * selected, and the stop command sent to the previously selected camera on
 * a switch. Also the two text helpers of the window: the address inside an
 * NDI source name and the update check's version comparison.
 */
module MainWindow {
  import opened Wrappers
  import Text
  import Seqs

  const DEFAULT_IP: string := "192.168.1.100"

  /**
   * `extract_ip_from_ndi_name`: the trimmed text between the first "(" and
   * the first ")" when both occur (empty when ")" comes first), else the
   * default address.
   */
  function ExtractIpFromNdiName(name: string): (r: string)
    ensures '(' !in name || ')' !in name ==> r == DEFAULT_IP
  {
    if '(' in name && ')' in name then
      Text.Strip(Text.Slice(name, Text.Find(name, '(') + 1, Text.Find(name, ')')))
    else DEFAULT_IP
  }

  /** A name of the form "Name (address)" gives back the trimmed address. */
  lemma ExtractIpRoundTrip(base: string, ip: string)
    requires '(' !in base && ')' !in base && '(' !in ip && ')' !in ip
    ensures ExtractIpFromNdiName(base + "(" + ip + ")") == Text.Strip(ip)
  {
    var s := base + "(" + ip + ")";
    var i, j := |base|, |base| + 1 + |ip|;
    assert s[i] == '(' && s[..i] == base;
    Text.FindAt(s, '(', i);
    assert s[j] == ')' && s[..j] == base + "(" + ip;
    Text.FindAt(s, ')', j);
    assert s[i + 1..j] == ip;
  }

  /** When ")" comes before "(", the slice is empty and so is the result. */
  lemma ExtractIpClosingFirst(a: string, b: string, c: string)
    requires '(' !in a && ')' !in a && '(' !in b
    ensures ExtractIpFromNdiName(a + ")" + b + "(" + c) == ""
  {
    var s := a + ")" + b + "(" + c;
    assert s[|a|] == ')' && s[..|a|] == a;
    Text.FindAt(s, ')', |a|);
    assert s[|a| + 1 + |b|] == '(' && s[..|a| + 1 + |b|] == a + ")" + b;
    Text.FindAt(s, '(', |a| + 1 + |b|);
  }

  // ---------------------------------------------------------------------
  // _is_newer_version

  /** `[int(x) for x in v.split(".")]`, or None where `int` raises. */
  function ParseParts(pieces: seq<string>): (r: Option<seq<int>>)
    ensures r.Some? ==> |r.value| == |pieces|
    ensures r.Some? <==> forall k :: 0 <= k < |pieces| ==> Text.ParseInt(pieces[k]).Some?
    ensures r.Some? ==> forall k :: 0 <= k < |pieces| ==> r.value[k] == Text.ParseInt(pieces[k]).value
  {
    if |pieces| == 0 then Some([])
    else
      var rest := ParseParts(pieces[1..]);
      var head := Text.ParseInt(pieces[0]);
      if head.None? || rest.None? then
        assert rest.None? ==> exists k :: 0 <= k < |pieces[1..]| && Text.ParseInt(pieces[1..][k]).None?;
        None
      else Some([head.value] + rest.value)
  }

  function Pad(parts: seq<int>, n: nat): (r: seq<int>)
    ensures |r| == if |parts| >= n then |parts| else n
    ensures r[..|parts|] == parts
    ensures forall k :: |parts| <= k < |r| ==> r[k] == 0
  {
    if |parts| >= n then parts else parts + seq(n - |parts|, _ => 0)
  }

  /** Python's `>` on two int lists of the same length. */
  function Greater(a: seq<int>, b: seq<int>): bool
    requires |a| == |b|
  {
    if |a| == 0 then false
    else if a[0] != b[0] then a[0] > b[0]
    else Greater(a[1..], b[1..])
  }

  /** `_is_newer_version`: both versions parse, and latest is greater once both are zero-padded. */
  function IsNewerVersion(latest: string, current: string): (r: bool)
    ensures r ==> ParseParts(Text.Split(latest, '.')).Some? && ParseParts(Text.Split(current, '.')).Some?
  {
    var l := ParseParts(Text.Split(latest, '.'));
    var c := ParseParts(Text.Split(current, '.'));
    if l.None? || c.None? then false
    else
      var n := if |l.value| >= |c.value| then |l.value| else |c.value|;
      Greater(Pad(l.value, n), Pad(c.value, n))
  }

  lemma {:induction false} GreaterIrreflexive(a: seq<int>)
    ensures !Greater(a, a)
    decreases |a|
  {
    if |a| > 0 {
      GreaterIrreflexive(a[1..]);
    }
  }

  lemma {:induction false} GreaterAsymmetric(a: seq<int>, b: seq<int>)
    requires |a| == |b|
    ensures !(Greater(a, b) && Greater(b, a))
    decreases |a|
  {
    if |a| > 0 && a[0] == b[0] {
      GreaterAsymmetric(a[1..], b[1..]);
    }
  }

  /** No version is newer than itself. */
  lemma NewerIrreflexive(v: string)
    ensures !IsNewerVersion(v, v)
  {
    var l := ParseParts(Text.Split(v, '.'));
    if l.Some? {
      GreaterIrreflexive(l.value);
    }
  }

  /** Two versions are never each newer than the other. */
  lemma NewerAsymmetric(a: string, b: string)
    ensures !(IsNewerVersion(a, b) && IsNewerVersion(b, a))
  {
    var pa := ParseParts(Text.Split(a, '.'));
    var pb := ParseParts(Text.Split(b, '.'));
    if pa.Some? && pb.Some? {
      var n := if |pa.value| >= |pb.value| then |pa.value| else |pb.value|;
      assert (if |pb.value| >= |pa.value| then |pb.value| else |pa.value|) == n;
      GreaterAsymmetric(Pad(pa.value, n), Pad(pb.value, n));
    }
  }

  /** A version with a piece `int` rejects is never newer, nor older. */
  lemma NonNumericNeverNewer(latest: string, current: string)
    requires exists k :: 0 <= k < |Text.Split(latest, '.')| && Text.ParseInt(Text.Split(latest, '.')[k]).None?
    ensures !IsNewerVersion(latest, current) && !IsNewerVersion(current, latest)
  {
  }

  lemma ParsePartsSnoc(pieces: seq<string>, x: string)
    ensures ParseParts(pieces + [x]) ==
      if ParseParts(pieces).Some? && Text.ParseInt(x).Some? then Some(ParseParts(pieces).value + [Text.ParseInt(x).value])
      else None
  {
    var all := pieces + [x];
    assert forall k :: 0 <= k < |pieces| ==> all[k] == pieces[k];
    assert all[|pieces|] == x;
    var p := ParseParts(pieces);
    var q := ParseParts(all);
    if p.Some? && Text.ParseInt(x).Some? {
      assert q.Some?;
      assert q.value == p.value + [Text.ParseInt(x).value];
    } else if p.None? {
      var k :| 0 <= k < |pieces| && Text.ParseInt(pieces[k]).None?;
      assert Text.ParseInt(all[k]).None?;
    } else {
      assert Text.ParseInt(all[|pieces|]).None?;
    }
  }

  /**
   * Zero padding: a trailing ".0" makes no difference, so "1.0" is neither
   * newer nor older than "1".
   */
  lemma TrailingZeroNotNewer(v: string)
    ensures !IsNewerVersion(v + ".0", v) && !IsNewerVersion(v, v + ".0")
  {
    SplitTrailingZero(v);
    ParseZero();
    ParsePartsSnoc(Text.Split(v, '.'), "0");
    var l := ParseParts(Text.Split(v, '.'));
    if l.Some? {
      var n := |l.value| + 1;
      assert Pad(l.value, n) == l.value + [0];
      assert Pad(l.value + [0], n) == l.value + [0];
      GreaterIrreflexive(l.value + [0]);
    }
  }

  lemma SplitTrailingZero(v: string)
    ensures Text.Split(v + ".0", '.') == Text.Split(v, '.') + ["0"]
  {
    Text.SplitAround(v, "0", '.');
    assert v + ".0" == v + ['.'] + "0";
    assert Text.Split("0", '.') == ["0"];
  }

  lemma ParseZero()
    ensures Text.ParseInt("0") == Some(0)
  {
    Text.ParseDecimal(0);
    assert Text.Decimal(0) == "0";
  }

  // ---------------------------------------------------------------------
  // The camera strip

  /** A camera tile: its identity, whether its VISCA link is up, and whether it is highlighted. */
  datatype Tile = Tile(handle: nat, connected: bool, selected: bool)

  predicate DistinctHandles(tiles: seq<Tile>)
  {
    forall i, j :: 0 <= i < j < |tiles| ==> tiles[i].handle != tiles[j].handle
  }

  function IndexOf(tiles: seq<Tile>, handle: nat): (r: Option<nat>)
    ensures r.Some? ==> r.value < |tiles| && tiles[r.value].handle == handle
    ensures r.Some? ==> forall k :: 0 <= k < r.value ==> tiles[k].handle != handle
    ensures r.None? <==> forall k :: 0 <= k < |tiles| ==> tiles[k].handle != handle
  {
    if |tiles| == 0 then None
    else if tiles[0].handle == handle then Some(0)
    else
      var r := IndexOf(tiles[1..], handle);
      if r.Some? then Some(r.value + 1) else None
  }

  /** The selection index after swapping entries `i` and `j`: it follows the camera it was on. */
  function FollowSwap(sel: int, i: int, j: int): int
  {
    if sel == i then j else if sel == j then i else sel
  }

  /** Swapping keeps the selection on the same camera. */
  lemma SwapFollowsSelection(tiles: seq<Tile>, sel: int, i: nat, j: nat)
    requires i < |tiles| && j < |tiles| && 0 <= sel < |tiles|
    ensures 0 <= FollowSwap(sel, i, j) < |tiles|
    ensures Seqs.Swap(tiles, i, j)[FollowSwap(sel, i, j)] == tiles[sel]
  {
  }

  /** Exactly the tile at `index` highlighted; handles and connection flags stay. */
  function Highlighted(tiles: seq<Tile>, index: int): (r: seq<Tile>)
    ensures |r| == |tiles|
    ensures forall k :: 0 <= k < |r| ==>
      r[k].handle == tiles[k].handle && r[k].connected == tiles[k].connected && (r[k].selected <==> k == index)
  {
    seq(|tiles|, k requires 0 <= k < |tiles| => tiles[k].(selected := k == index))
  }

  /**
   * The stop sent when the selection moves on: to the camera at the old
   * index, when the option is on and that camera is connected.
   */
  function StopOnLeave(tiles: seq<Tile>, sel: int, stopOnSwitch: bool): (r: seq<nat>)
    ensures |r| <= 1
    ensures r != [] <==> stopOnSwitch && 0 <= sel < |tiles| && tiles[sel].connected
    ensures r != [] ==> r[0] == tiles[sel].handle
  {
    if stopOnSwitch && 0 <= sel < |tiles| && tiles[sel].connected then [tiles[sel].handle] else []
  }

  /** Dropping one tile keeps the handles distinct. */
  lemma RemoveKeepsDistinct(tiles: seq<Tile>, i: nat)
    requires i < |tiles| && DistinctHandles(tiles)
    ensures DistinctHandles(tiles[..i] + tiles[i + 1..])
  {
    var r := tiles[..i] + tiles[i + 1..];
    forall a, b | 0 <= a < b < |r|
      ensures r[a].handle != r[b].handle
    {
      assert r[a] == tiles[if a < i then a else a + 1];
      assert r[b] == tiles[if b < i then b else b + 1];
    }
  }

  /** Swapping two tiles keeps the handles distinct. */
  lemma SwapKeepsDistinct(tiles: seq<Tile>, i: nat, j: nat)
    requires i < |tiles| && j < |tiles| && DistinctHandles(tiles)
    ensures DistinctHandles(Seqs.Swap(tiles, i, j))
  {
    var r := Seqs.Swap(tiles, i, j);
    forall a, b | 0 <= a < b < |r|
      ensures r[a].handle != r[b].handle
    {
      assert r[a] == tiles[FollowSwap(a, i, j)];
      assert r[b] == tiles[FollowSwap(b, i, j)];
    }
  }

  class Window {
    var tiles: seq<Tile>
    var selectedIndex: int
    /** The handles of the cameras sent a stop command, oldest first. */
    var stopsSent: seq<nat>

    /** Every camera widget is in the strip once. */
    ghost predicate Valid()
      reads this
    {
      DistinctHandles(tiles)
    }

    constructor(tiles: seq<Tile>)
      requires DistinctHandles(tiles)
      ensures Valid()
      ensures this.tiles == tiles && selectedIndex == 0 && stopsSent == []
    {
      this.tiles := tiles;
      selectedIndex := 0;
      stopsSent := [];
    }

    /** `get_selected_camera`. */
    function SelectedCamera(): (r: Option<Tile>)
      reads this
      ensures r.Some? <==> 0 <= selectedIndex < |tiles|
      ensures r.Some? ==> r.value == tiles[selectedIndex]
    {
      if 0 <= selectedIndex < |tiles| then Some(tiles[selectedIndex]) else None
    }

    /**
     * `select_camera_at_index`: out-of-range indices are ignored; otherwise the
     * previously selected camera gets a stop when that option is on and it is
     * connected, and exactly the target camera ends up selected.
     */
    method SelectCameraAtIndex(index: int, stopOnSwitch: bool)
      requires Valid()
      modifies this
      ensures Valid()
      ensures !(0 <= index < |old(tiles)|) ==> unchanged(this)
      ensures 0 <= index < |old(tiles)| ==>
        && selectedIndex == index
        && tiles == Highlighted(old(tiles), index)
        && stopsSent == old(stopsSent) + StopOnLeave(old(tiles), old(selectedIndex), stopOnSwitch)
    {
      if index < 0 || index >= |tiles| {
        return;
      }
      if stopOnSwitch && 0 <= selectedIndex < |tiles| && tiles[selectedIndex].connected {
        stopsSent := stopsSent + [tiles[selectedIndex].handle];
      }
      var ts := tiles;
      var k := 0;
      while k < |ts|
        invariant 0 <= k <= |ts| == |tiles|
        invariant forall m :: 0 <= m < |ts| ==> ts[m] == tiles[m].(selected := if m < k then false else tiles[m].selected)
      {
        ts := ts[k := ts[k].(selected := false)];
        k := k + 1;
      }
      selectedIndex := index;
      ghost var before := tiles;
      tiles := ts[index := ts[index].(selected := true)];
      assert tiles == Highlighted(before, index);
    }

    /** `select_camera`: step the selection by `offset`, wrapping around; nothing with no cameras. */
    method SelectCamera(offset: int, stopOnSwitch: bool)
      requires Valid()
      modifies this
      ensures Valid()
      ensures |old(tiles)| == 0 ==> unchanged(this)
      ensures |old(tiles)| > 0 ==>
        && selectedIndex == (old(selectedIndex) + offset) % |old(tiles)|
        && tiles == Highlighted(old(tiles), selectedIndex)
        && stopsSent == old(stopsSent) + StopOnLeave(old(tiles), old(selectedIndex), stopOnSwitch)
    {
      if |tiles| == 0 {
        return;
      }
      SelectCameraAtIndex((selectedIndex + offset) % |tiles|, stopOnSwitch);
    }

    /**
     * `move_camera_left`: swap the camera with its left neighbour, keeping the
     * selection on the same camera; nothing for the first or an unknown camera.
     */
    method MoveCameraLeft(handle: nat)
      requires Valid()
      modifies this`tiles, this`selectedIndex
      ensures Valid()
      ensures match IndexOf(old(tiles), handle)
              case Some(i) =>
                if i > 0 then tiles == Seqs.Swap(old(tiles), i, i - 1) && selectedIndex == FollowSwap(old(selectedIndex), i, i - 1)
                else tiles == old(tiles) && selectedIndex == old(selectedIndex)
              case None => tiles == old(tiles) && selectedIndex == old(selectedIndex)
      ensures 0 <= old(selectedIndex) < |old(tiles)| ==> 0 <= selectedIndex < |tiles| && tiles[selectedIndex] == old(tiles)[old(selectedIndex)]
    {
      var i := IndexOf(tiles, handle);
      if i.None? || i.value == 0 {
        return;
      }
      var index := i.value;
      if 0 <= selectedIndex < |tiles| {
        SwapFollowsSelection(tiles, selectedIndex, index, index - 1);
      }
      SwapKeepsDistinct(tiles, index, index - 1);
      tiles := Seqs.Swap(tiles, index, index - 1);
      if selectedIndex == index {
        selectedIndex := index - 1;
      } else if selectedIndex == index - 1 {
        selectedIndex := index;
      }
    }

    /** `move_camera_right`: as `move_camera_left`, with the right neighbour. */
    method MoveCameraRight(handle: nat)
      requires Valid()
      modifies this`tiles, this`selectedIndex
      ensures Valid()
      ensures match IndexOf(old(tiles), handle)
              case Some(i) =>
                if i < |old(tiles)| - 1 then tiles == Seqs.Swap(old(tiles), i, i + 1) && selectedIndex == FollowSwap(old(selectedIndex), i, i + 1)
                else tiles == old(tiles) && selectedIndex == old(selectedIndex)
              case None => tiles == old(tiles) && selectedIndex == old(selectedIndex)
      ensures 0 <= old(selectedIndex) < |old(tiles)| ==> 0 <= selectedIndex < |tiles| && tiles[selectedIndex] == old(tiles)[old(selectedIndex)]
    {
      var i := IndexOf(tiles, handle);
      if i.None? || i.value == |tiles| - 1 {
        return;
      }
      var index := i.value;
      if 0 <= selectedIndex < |tiles| {
        SwapFollowsSelection(tiles, selectedIndex, index, index + 1);
      }
      SwapKeepsDistinct(tiles, index, index + 1);
      tiles := Seqs.Swap(tiles, index, index + 1);
      if selectedIndex == index {
        selectedIndex := index + 1;
      } else if selectedIndex == index + 1 {
        selectedIndex := index;
      }
    }

    /**
     * `remove_camera` after the confirmation: drop the camera, clamp the
     * selection to the last index and select there. The reselection starts
     * from the clamped index, so the stop it may send goes to the camera now
     * at that index.
     */
    method RemoveCamera(handle: nat, confirmed: bool, stopOnSwitch: bool)
      requires Valid()
      modifies this
      ensures Valid()
      ensures !confirmed || IndexOf(old(tiles), handle).None? ==> unchanged(this)
      ensures confirmed && IndexOf(old(tiles), handle).Some? ==>
        var i := IndexOf(old(tiles), handle).value;
        var rest := old(tiles)[..i] + old(tiles)[i + 1..];
        var sel := if old(selectedIndex) < |rest| - 1 then old(selectedIndex) else |rest| - 1;
        && (|rest| == 0 ==> tiles == [] && selectedIndex == old(selectedIndex) && stopsSent == old(stopsSent))
        && (|rest| > 0 && 0 <= sel ==>
              && selectedIndex == sel
              && tiles == Highlighted(rest, sel)
              && stopsSent == old(stopsSent) + StopOnLeave(rest, sel, stopOnSwitch))
        && (|rest| > 0 && sel < 0 ==> tiles == rest && selectedIndex == sel && stopsSent == old(stopsSent))
    {
      if !confirmed {
        return;
      }
      var i := IndexOf(tiles, handle);
      if i.None? {
        return;
      }
      RemoveKeepsDistinct(tiles, i.value);
      tiles := tiles[..i.value] + tiles[i.value + 1..];
      if |tiles| > 0 {
        selectedIndex := if selectedIndex < |tiles| - 1 then selectedIndex else |tiles| - 1;
        SelectCameraAtIndex(selectedIndex, stopOnSwitch);
      }
    }
  }

  /**
   * Removing a camera to the left of the selected one keeps the selection
   * index, so the selection moves on to the camera that slid into that place.
   */
  method RemoveLeftOfSelection(a: nat, b: nat, c: nat) returns (before: nat, after: nat)
    requires a != b && b != c && a != c
    ensures before == b && after == c
  {
    var w := new Window([Tile(a, false, false), Tile(b, false, true), Tile(c, false, false)]);
    w.selectedIndex := 1;
    before := w.tiles[w.selectedIndex].handle;
    w.RemoveCamera(a, true, false);
    after := w.tiles[w.selectedIndex].handle;
  }
}
