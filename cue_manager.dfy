/**
 * The cue list: camera columns and cue rows, each row mapping camera ids to
 * preset ids. Loading repairs legacy or malformed data (`_normalize_cues`);
 * the other operations edit the repaired list. JSON file I/O is not modelled,
 * and the ids `uuid.uuid4()` would draw are given as parameters.
 */
module CueManager {
  import opened Wrappers
  import Text
  import Seqs

  // ---------------------------------------------------------------------
  // Loaded JSON, as far as the cue list looks at it

  /**
   * A JSON value in a position where the code only asks "is it a (non-empty)
   * string?" or converts it with `str()`. `Null` also stands for a missing key,
   * since `dict.get` answers None for both; `Compound` is a list, object or
   * float, carried with its `str()` text.
   */
  datatype Value = Null | Str(s: string) | Int(i: int) | Bool(b: bool) | Compound(repr: string)

  /** The `camera_presets` entry of a cue: missing, present but not an object, or an object. */
  datatype RawPresets = Missing | NotDict | Dict(m: map<string, Value>)

  /**
   * A cue row as loaded: a JSON non-object, or an object with the keys the
   * code reads (`cue`, `camera_id` and `preset_uuid` are legacy keys).
   */
  datatype RawCue =
    | NonDict
    | CueDict(id: Value, name: Value, cueNumber: Value, legacyCue: Value, presets: RawPresets,
              legacyCameraId: Value, legacyPresetUuid: Value)

  predicate NonEmptyStr(v: Value)
  {
    v.Str? && v.s != ""
  }

  /** Python's `str(v)`. */
  function StrOf(v: Value): string
  {
    match v
    case Null => "None"
    case Str(s) => s
    case Int(i) => Text.Decimal(i)
    case Bool(b) => if b then "True" else "False"
    case Compound(r) => r
  }

  // ---------------------------------------------------------------------
  // Column normalisation

  /**
   * The column list kept by `_normalize_cues`: the non-empty strings of `raw`,
   * each once, in first-occurrence order, after the columns `acc` kept so far.
   */
  function DedupColumns(raw: seq<Value>, acc: seq<string>): (r: seq<string>)
    ensures acc <= r && |r| <= |acc| + |raw|
  {
    if |raw| == 0 then acc
    else if NonEmptyStr(raw[0]) && raw[0].s !in acc then DedupColumns(raw[1..], acc + [raw[0].s])
    else DedupColumns(raw[1..], acc)
  }

  predicate DistinctStrings(xs: seq<string>)
  {
    forall i, j :: 0 <= i < j < |xs| ==> xs[i] != xs[j]
  }

  function AsValues(cols: seq<string>): (r: seq<Value>)
    ensures |r| == |cols| && forall k :: 0 <= k < |cols| ==> r[k] == Str(cols[k])
  {
    seq(|cols|, k requires 0 <= k < |cols| => Str(cols[k]))
  }

  /** The kept columns are non-empty and distinct, and are exactly the non-empty strings of the raw list. */
  lemma {:induction false} DedupColumnsClean(raw: seq<Value>, acc: seq<string>)
    requires DistinctStrings(acc) && forall c :: c in acc ==> c != ""
    ensures DistinctStrings(DedupColumns(raw, acc))
    ensures forall c :: c in DedupColumns(raw, acc) ==> c != ""
    ensures forall c :: c in DedupColumns(raw, acc) <==> c in acc || (c != "" && Str(c) in raw)
    decreases |raw|
  {
    if |raw| > 0 {
      var next := if NonEmptyStr(raw[0]) && raw[0].s !in acc then acc + [raw[0].s] else acc;
      DedupColumnsClean(raw[1..], next);
      assert raw == [raw[0]] + raw[1..];
    }
  }

  /** A column list that is already clean comes back as it is. */
  lemma {:induction false} DedupColumnsKeepsClean(cols: seq<string>, acc: seq<string>)
    requires DistinctStrings(acc + cols) && forall c :: c in cols ==> c != ""
    ensures DedupColumns(AsValues(cols), acc) == acc + cols
    decreases |cols|
  {
    if |cols| == 0 {
      assert acc + cols == acc;
    } else {
      assert (acc + cols)[|acc|] == cols[0];
      assert cols[0] !in acc by {
        forall k | 0 <= k < |acc|
          ensures acc[k] != cols[0]
        {
          assert (acc + cols)[k] == acc[k];
        }
      }
      assert AsValues(cols)[1..] == AsValues(cols[1..]);
      assert acc + [cols[0]] + cols[1..] == acc + cols;
      assert forall c :: c in cols[1..] ==> c in cols;
      assert AsValues(cols)[0] == Str(cols[0]) && cols[0] in cols;
      assert NonEmptyStr(AsValues(cols)[0]) && AsValues(cols)[0].s !in acc;
      assert DedupColumns(AsValues(cols), acc) == DedupColumns(AsValues(cols[1..]), acc + [cols[0]]);
      DedupColumnsKeepsClean(cols[1..], acc + [cols[0]]);
    }
  }

  // ---------------------------------------------------------------------
  // Cue normalisation

  /** The legacy single-camera form `camera_id`/`preset_uuid` as a presets object. */
  function LegacyPresets(cameraId: Value, presetUuid: Value): map<string, Value>
  {
    if NonEmptyStr(cameraId) then map[cameraId.s := if NonEmptyStr(presetUuid) then presetUuid else Null] else map[]
  }

  /** Keys must be non-empty; a value that is not a non-empty string becomes null. */
  function CleanPresetMap(m: map<string, Value>): (r: map<string, Value>)
    ensures forall k :: k in r <==> k in m && k != ""
    ensures forall k :: k in r ==> r[k] == (if NonEmptyStr(m[k]) then m[k] else Null)
  {
    map k | k in m && k != "" :: if NonEmptyStr(m[k]) then m[k] else Null
  }

  predicate CleanPresets(m: map<string, Value>)
  {
    forall k :: k in m ==> k != "" && (m[k] == Null || NonEmptyStr(m[k]))
  }

  /** The result of normalising one cue object. */
  datatype CueFix = CueFix(cue: RawCue, id: string, changed: bool)

  /**
   * One cue object: an invalid, empty or already seen id is replaced by the
   * new one; an invalid name becomes "Cue"; the cue number becomes a
   * string (from the legacy `cue` key when missing); the presets come from the
   * legacy keys when missing, become empty when not an object, and are cleaned.
   */
  function NormalizeCue(c: RawCue, seen: set<string>, newId: string): (r: CueFix)
    requires c.CueDict?
    ensures r.cue.CueDict? && r.cue.id == Str(r.id)
    ensures r.id == newId || (c.id == Str(r.id) && r.id != "" && r.id !in seen)
    ensures c.id != Str(r.id) ==> r.changed
  {
    var idOk := NonEmptyStr(c.id) && c.id.s !in seen;
    var id := if idOk then c.id.s else newId;
    var name := if NonEmptyStr(c.name) then c.name else Str("Cue");
    var number := if c.cueNumber == Null then Str(if c.legacyCue == Null then "" else StrOf(c.legacyCue))
                  else Str(StrOf(c.cueNumber));
    var raw := match c.presets
               case Missing => LegacyPresets(c.legacyCameraId, c.legacyPresetUuid)
               case NotDict => map[]
               case Dict(m) => m;
    var clean := CleanPresetMap(raw);
    var changed := !idOk || !NonEmptyStr(c.name) || !c.cueNumber.Str? || !c.presets.Dict? || clean != raw;
    CueFix(c.(id := Str(id), name := name, cueNumber := number, presets := Dict(clean)), id, changed)
  }

  /** The shape every normalised cue has. */
  predicate WellFormedCue(c: RawCue)
  {
    c.CueDict? && NonEmptyStr(c.id) && NonEmptyStr(c.name) && c.cueNumber.Str?
    && c.presets.Dict? && CleanPresets(c.presets.m)
  }

  function IdOf(c: RawCue): string
  {
    if c.CueDict? && c.id.Str? then c.id.s else ""
  }

  lemma NormalizeCueShape(c: RawCue, seen: set<string>, newId: string)
    requires c.CueDict? && newId != ""
    ensures WellFormedCue(NormalizeCue(c, seen, newId).cue)
    ensures NormalizeCue(c, seen, newId).id == IdOf(NormalizeCue(c, seen, newId).cue)
    ensures NormalizeCue(c, seen, newId).id !in seen || NormalizeCue(c, seen, newId).id == newId
    ensures NormalizeCue(c, seen, newId).id == newId || NormalizeCue(c, seen, newId).id == IdOf(c)
  {
  }

  /**
   * A legacy single-camera cue is migrated: its `camera_id`/`preset_uuid` pair
   * becomes the presets object, its legacy `cue` number the cue number, and the
   * change is reported.
   */
  lemma LegacyCueMigrated(c: RawCue, seen: set<string>, newId: string)
    requires c.CueDict? && c.presets.Missing? && c.cueNumber == Null && NonEmptyStr(c.legacyCameraId)
    ensures var fix := NormalizeCue(c, seen, newId);
      && fix.cue.presets == Dict(map[c.legacyCameraId.s := if NonEmptyStr(c.legacyPresetUuid) then c.legacyPresetUuid else Null])
      && fix.cue.cueNumber == Str(if c.legacyCue == Null then "" else StrOf(c.legacyCue))
      && fix.changed
  {
  }

  /** A cue that is already well formed, with an id not seen before, is left alone. */
  lemma NormalizeCueKeepsWellFormed(c: RawCue, seen: set<string>, newId: string)
    requires WellFormedCue(c) && c.id.s !in seen
    ensures NormalizeCue(c, seen, newId) == CueFix(c, c.id.s, false)
  {
    var m := c.presets.m;
    assert CleanPresetMap(m) == m;
  }

  /** The cue list after normalisation, and whether anything changed. */
  datatype ListFix = ListFix(cues: seq<RawCue>, changed: bool)

  /**
   * `_normalize_cues` over the cue list: non-objects are dropped and each
   * object is normalised with the ids kept so far; cue `i` would take `newId[i]`.
   */
  function NormalizeList(raw: seq<RawCue>, seen: set<string>, newId: seq<string>): (r: ListFix)
    requires |newId| >= |raw|
    ensures |r.cues| <= |raw|
  {
    if |raw| == 0 then ListFix([], false)
    else if raw[0].NonDict? then
      var rest := NormalizeList(raw[1..], seen, newId[1..]);
      ListFix(rest.cues, true)
    else
      var fix := NormalizeCue(raw[0], seen, newId[0]);
      var rest := NormalizeList(raw[1..], seen + {fix.id}, newId[1..]);
      ListFix([fix.cue] + rest.cues, fix.changed || rest.changed)
  }

  predicate UniqueIds(cues: seq<RawCue>)
  {
    forall i, j :: 0 <= i < j < |cues| ==> IdOf(cues[i]) != IdOf(cues[j])
  }

  /**
   * The newId ids `uuid4` draws: non-empty, distinct, and different from every
   * id already present or seen.
   */
  predicate FreshFor(newId: seq<string>, raw: seq<RawCue>, seen: set<string>)
  {
    (forall k :: 0 <= k < |newId| ==> newId[k] != "" && newId[k] !in seen)
    && DistinctStrings(newId)
    && (forall k, j :: 0 <= k < |newId| && 0 <= j < |raw| ==> newId[k] != IdOf(raw[j]))
  }

  /**
   * After normalisation every cue is well formed and the ids are unique and
   * new with respect to `seen`.
   */
  lemma {:induction false} NormalizeListClean(raw: seq<RawCue>, seen: set<string>, newId: seq<string>)
    requires |newId| >= |raw| && FreshFor(newId, raw, seen)
    ensures forall c :: c in NormalizeList(raw, seen, newId).cues ==> WellFormedCue(c) && IdOf(c) !in seen
    ensures UniqueIds(NormalizeList(raw, seen, newId).cues)
    decreases |raw|
  {
    if |raw| > 0 {
      FreshForTail(raw, seen, newId);
      if raw[0].NonDict? {
        NormalizeListClean(raw[1..], seen, newId[1..]);
      } else {
        var fix := NormalizeCue(raw[0], seen, newId[0]);
        NormalizeCueShape(raw[0], seen, newId[0]);
        var seen' := seen + {fix.id};
        NormalizeListClean(raw[1..], seen', newId[1..]);
        ConsUnique(fix.cue, NormalizeList(raw[1..], seen', newId[1..]).cues);
      }
    }
  }

  /** The ids left for the rest of the list are fresh for it, whichever id the head kept. */
  lemma FreshForTail(raw: seq<RawCue>, seen: set<string>, newId: seq<string>)
    requires 0 < |raw| <= |newId| && FreshFor(newId, raw, seen)
    ensures FreshFor(newId[1..], raw[1..], seen)
    ensures raw[0].CueDict? ==> FreshFor(newId[1..], raw[1..], seen + {NormalizeCue(raw[0], seen, newId[0]).id})
  {
    assert forall k :: 0 <= k < |newId[1..]| ==> newId[1..][k] == newId[k + 1];
    assert forall j :: 0 <= j < |raw[1..]| ==> raw[1..][j] == raw[j + 1];
    assert forall k :: 1 <= k < |newId| ==> newId[k] != newId[0] && newId[k] != IdOf(raw[0]);
  }

  lemma ConsUnique(c: RawCue, rest: seq<RawCue>)
    requires UniqueIds(rest) && forall d :: d in rest ==> IdOf(d) != IdOf(c)
    ensures UniqueIds([c] + rest)
  {
    var out := [c] + rest;
    forall i, j | 0 <= i < j < |out|
      ensures IdOf(out[i]) != IdOf(out[j])
    {
      assert out[j] == rest[j - 1];
      if i > 0 {
        assert out[i] == rest[i - 1];
      }
    }
  }

  /** Normalising an already normalised list changes nothing and reports no change. */
  lemma {:induction false} NormalizeListIdempotent(cues: seq<RawCue>, seen: set<string>, newId: seq<string>)
    requires |newId| >= |cues|
    requires forall c :: c in cues ==> WellFormedCue(c) && IdOf(c) !in seen
    requires UniqueIds(cues)
    ensures NormalizeList(cues, seen, newId) == ListFix(cues, false)
    decreases |cues|
  {
    if |cues| > 0 {
      var c := cues[0];
      NormalizeCueKeepsWellFormed(c, seen, newId[0]);
      forall d | d in cues[1..]
        ensures WellFormedCue(d) && IdOf(d) !in seen + {c.id.s}
      {
        var j :| 0 <= j < |cues[1..]| && cues[1..][j] == d;
        assert cues[j + 1] == d;
      }
      assert UniqueIds(cues[1..]) by {
        forall i, j | 0 <= i < j < |cues[1..]|
          ensures IdOf(cues[1..][i]) != IdOf(cues[1..][j])
        {
          assert cues[1..][i] == cues[i + 1] && cues[1..][j] == cues[j + 1];
        }
      }
      NormalizeListIdempotent(cues[1..], seen + {c.id.s}, newId[1..]);
      assert cues == [c] + cues[1..];
    }
  }

  /** What loading does to the stored data: the repaired columns and cues, and whether to save. */
  datatype Loaded = Loaded(columns: seq<string>, cues: seq<RawCue>, changed: bool)

  /**
   * `_normalize_cues` as a whole. `rawColumns`/`rawCues` are None when the key
   * is missing or not a list; a non-list cue entry makes the method return
   * early, with the columns repaired and the cues emptied.
   */
  function Normalize(rawColumns: Option<seq<Value>>, rawCues: Option<seq<RawCue>>, newId: seq<string>): (r: Loaded)
    requires rawCues.Some? ==> |newId| >= |rawCues.value|
    ensures rawCues.None? ==> r.cues == [] && r.changed
    ensures rawCues.Some? ==> |r.cues| <= |rawCues.value|
    ensures |r.columns| <= |rawColumns.GetOr([])|
  {
    var cols := DedupColumns(rawColumns.GetOr([]), []);
    var colsChanged := rawColumns.None? || AsValues(cols) != rawColumns.value;
    match rawCues
    case None => Loaded(cols, [], true)
    case Some(cues) =>
      var fix := NormalizeList(cues, {}, newId);
      Loaded(cols, fix.cues, colsChanged || fix.changed)
  }

  /** Loading normalised data reports no change and leaves it as it is. */
  lemma NormalizeIdempotent(cols: seq<string>, cues: seq<RawCue>, newId: seq<string>)
    requires |newId| >= |cues|
    requires DistinctStrings(cols) && forall c :: c in cols ==> c != ""
    requires forall c :: c in cues ==> WellFormedCue(c)
    requires UniqueIds(cues)
    ensures Normalize(Some(AsValues(cols)), Some(cues), newId) == Loaded(cols, cues, false)
  {
    DedupColumnsKeepsClean(cols, []);
    assert [] + cols == cols;
    NormalizeListIdempotent(cues, {}, newId);
  }

  /** Whatever was loaded, the normalised data is clean. */
  lemma NormalizeClean(rawColumns: Option<seq<Value>>, rawCues: Option<seq<RawCue>>, newId: seq<string>)
    requires rawCues.Some? ==> |newId| >= |rawCues.value| && FreshFor(newId, rawCues.value, {})
    ensures DistinctStrings(Normalize(rawColumns, rawCues, newId).columns)
    ensures forall c :: c in Normalize(rawColumns, rawCues, newId).columns ==> c != ""
    ensures forall c :: c in Normalize(rawColumns, rawCues, newId).cues ==> WellFormedCue(c)
    ensures UniqueIds(Normalize(rawColumns, rawCues, newId).cues)
    ensures rawCues.None? ==> Normalize(rawColumns, rawCues, newId).changed
  {
    DedupColumnsClean(rawColumns.GetOr([]), []);
    if rawCues.Some? {
      NormalizeListClean(rawCues.value, {}, newId);
    }
  }

  // ---------------------------------------------------------------------
  // Queries and edits on the normalised list

  function FirstCueWithId(cues: seq<RawCue>, id: string): (r: Option<nat>)
    ensures r.Some? ==> r.value < |cues| && IdOf(cues[r.value]) == id
    ensures r.Some? ==> forall k :: 0 <= k < r.value ==> IdOf(cues[k]) != id
    ensures r.None? <==> forall k :: 0 <= k < |cues| ==> IdOf(cues[k]) != id
  {
    if |cues| == 0 then None
    else if IdOf(cues[0]) == id then Some(0)
    else
      var r := FirstCueWithId(cues[1..], id);
      if r.Some? then Some(r.value + 1) else None
  }

  /** `dict.fromkeys(columns)`, filled from `presets` where it holds a string for that column. */
  function InsertPresets(columns: seq<string>, presets: Option<map<string, Value>>): (m: map<string, Value>)
    ensures forall k :: k in m <==> k in columns
    ensures forall k :: k in m ==> m[k] == Null || m[k].Str?
    ensures presets.None? ==> forall k :: k in m ==> m[k] == Null
  {
    map k | k in columns ::
      if presets.Some? && |presets.value| > 0 && k in presets.value && presets.value[k].Str? then presets.value[k] else Null
  }

  /**
   * The presets `duplicate_cue_at` passes on: for each given column, the
   * source cue's entry when it is a string, null otherwise.
   */
  function DuplicatedPresets(m: map<string, Value>, cols: seq<string>): (r: map<string, Value>)
    ensures forall k :: k in r <==> k in cols
    ensures forall k :: k in r ==> r[k] == (if k in m && m[k].Str? then m[k] else Null)
  {
    var copied := map k | k in cols :: if k in m then m[k] else Null;
    if |cols| > 0 then
      assert cols[0] in copied;
      InsertPresets(cols, Some(copied))
    else InsertPresets(cols, Some(copied))
  }

  /** `max(0, min(index, n))`. */
  function ClampIndex(index: int, n: nat): (r: nat)
    ensures r <= n
    ensures 0 <= index <= n ==> r == index
    ensures index < 0 ==> r == 0
    ensures index > n ==> r == n
  {
    if index < 0 then 0 else if index > n then n else index
  }

  function WithoutCueId(cues: seq<RawCue>, id: string): (r: seq<RawCue>)
    ensures |r| <= |cues|
    ensures forall c :: c in r <==> c in cues && IdOf(c) != id
  {
    if |cues| == 0 then []
    else if IdOf(cues[0]) == id then WithoutCueId(cues[1..], id)
    else [cues[0]] + WithoutCueId(cues[1..], id)
  }

  /** Exactly the cues with that id are dropped, so the list shrinks iff one had it. */
  lemma {:induction false} WithoutCueIdShrinks(cues: seq<RawCue>, id: string)
    ensures |WithoutCueId(cues, id)| < |cues| <==> FirstCueWithId(cues, id).Some?
    decreases |cues|
  {
    if |cues| > 0 {
      WithoutCueIdShrinks(cues[1..], id);
    }
  }

  class Cues {
    var columns: seq<string>
    var cues: seq<RawCue>
    /** Whether loading changed the data, so that it was saved back. */
    var savedOnLoad: bool

    /** Every cue is an object with a non-empty string id, ids unique. */
    ghost predicate Valid()
      reads this
    {
      (forall c :: c in cues ==> c.CueDict? && NonEmptyStr(c.id) && c.presets.Dict?) && UniqueIds(cues)
    }

    /** `__init__`: load, normalise, and save when normalisation changed something. */
    constructor(rawColumns: Option<seq<Value>>, rawCues: Option<seq<RawCue>>, newId: seq<string>)
      requires rawCues.Some? ==> |newId| >= |rawCues.value|
      ensures Loaded(columns, cues, savedOnLoad) == Normalize(rawColumns, rawCues, newId)
      ensures rawCues.Some? && FreshFor(newId, rawCues.value, {}) ==> Valid()
    {
      var cols, colsChanged := NormalizeColumns(rawColumns);
      if rawCues.None? {
        columns, cues, savedOnLoad := cols, [], true;
      } else {
        var list, listChanged := NormalizeCueList(rawCues.value, newId);
        columns, cues, savedOnLoad := cols, list, colsChanged || listChanged;
        if FreshFor(newId, rawCues.value, {}) {
          NormalizeClean(rawColumns, rawCues, newId);
        }
      }
    }

    /** The column loop of `_normalize_cues`. */
    static method NormalizeColumns(raw: Option<seq<Value>>) returns (cols: seq<string>, changed: bool)
      ensures cols == DedupColumns(raw.GetOr([]), [])
      ensures changed <==> raw.None? || AsValues(cols) != raw.value
    {
      var values := raw.GetOr([]);
      cols := [];
      var i := 0;
      while i < |values|
        invariant 0 <= i <= |values|
        invariant DedupColumns(values[i..], cols) == DedupColumns(values, [])
      {
        assert values[i..][1..] == values[i + 1..];
        if NonEmptyStr(values[i]) && values[i].s !in cols {
          cols := cols + [values[i].s];
        }
        i := i + 1;
      }
      changed := raw.None? || AsValues(cols) != values;
    }

    /** The cue loop of `_normalize_cues`; cue `i` would take `newId[i]` as its new id. */
    static method NormalizeCueList(raw: seq<RawCue>, newId: seq<string>) returns (out: seq<RawCue>, changed: bool)
      requires |newId| >= |raw|
      ensures ListFix(out, changed) == NormalizeList(raw, {}, newId)
    {
      var seen: set<string> := {};
      out := [];
      changed := false;
      var i := 0;
      while i < |raw|
        invariant 0 <= i <= |raw|
        invariant var rest := NormalizeList(raw[i..], seen, newId[i..]);
                  ListFix(out + rest.cues, changed || rest.changed) == NormalizeList(raw, {}, newId)
      {
        assert raw[i..][1..] == raw[i + 1..] && newId[i..][1..] == newId[i + 1..];
        if raw[i].NonDict? {
          changed := true;
        } else {
          var fix := NormalizeCue(raw[i], seen, newId[i]);
          out := out + [fix.cue];
          seen := seen + {fix.id};
          changed := changed || fix.changed;
        }
        i := i + 1;
      }
      assert out + [] == out;
    }

    /** `get_cue_by_id`: the first cue with that id. */
    function CueById(id: string): (r: Option<RawCue>)
      reads this
      ensures r.Some? ==> r.value in cues && IdOf(r.value) == id
      ensures r.None? <==> forall k :: 0 <= k < |cues| ==> IdOf(cues[k]) != id
    {
      match FirstCueWithId(cues, id)
      case Some(i) => Some(cues[i])
      case None => None
    }

    /**
     * `sync_camera_columns`: with no columns yet, they become a copy of the
     * loaded ids; otherwise each loaded id not yet a column is appended, in order.
     */
    method SyncCameraColumns(loaded: seq<string>) returns (result: seq<string>)
      modifies this`columns
      ensures old(columns) == [] ==> columns == loaded
      ensures old(columns) != [] ==> columns == old(columns) + Seqs.NewItems(old(columns), loaded)
      ensures old(columns) != [] ==> forall c :: c in columns <==> c in old(columns) || c in loaded
      ensures old(columns) != [] && DistinctStrings(old(columns)) ==> DistinctStrings(columns)
      ensures result == columns
    {
      if columns == [] {
        columns := loaded;
        return columns;
      }
      var added, i := [], 0;
      while i < |loaded|
        invariant 0 <= i <= |loaded|
        invariant added == Seqs.NewItems(columns, loaded[..i])
        invariant unchanged(this)
      {
        Seqs.NewItemsStep(columns, loaded, i);
        if loaded[i] !in columns && loaded[i] !in added {
          added := added + [loaded[i]];
        }
        i := i + 1;
      }
      assert loaded[..i] == loaded;
      if DistinctStrings(columns) {
        assert forall i, j :: 0 <= i < j < |columns| ==> columns[i] != columns[j];
        Seqs.AppendNewItems(columns, loaded);
      }
      columns := columns + added;
      result := columns;
    }

    /** `add_cue`: append a cue with the new id and a null preset for each given column. */
    method AddCue(newCueId: string, cueNumber: string, name: string, cols: seq<string>) returns (id: string)
      modifies this`cues
      ensures id == newCueId
      ensures cues == old(cues) + [CueDict(Str(newCueId), Str(name), Str(cueNumber), Null,
                                           Dict(InsertPresets(cols, None)), Null, Null)]
      ensures old(Valid()) && newCueId != "" && FirstCueWithId(old(cues), newCueId).None? ==> Valid()
    {
      var cue := CueDict(Str(newCueId), Str(name), Str(cueNumber), Null, Dict(InsertPresets(cols, None)), Null, Null);
      cues := cues + [cue];
      id := newCueId;
    }

    /**
     * `insert_cue_at`: insert at the index clamped into [0, n]; the presets
     * cover exactly the given columns, taking a string from `presets` when
     * given a non-empty map, null otherwise.
     */
    method InsertCueAt(newCueId: string, index: int, cueNumber: string, name: string, cols: seq<string>,
                       presets: Option<map<string, Value>>) returns (id: string)
      modifies this`cues
      ensures id == newCueId
      ensures var at := ClampIndex(index, |old(cues)|);
              cues == old(cues)[..at] + [CueDict(Str(newCueId), Str(name), Str(cueNumber), Null,
                                                 Dict(InsertPresets(cols, presets)), Null, Null)] + old(cues)[at..]
    {
      var cue := CueDict(Str(newCueId), Str(name), Str(cueNumber), Null, Dict(InsertPresets(cols, presets)), Null, Null);
      var at := ClampIndex(index, |cues|);
      cues := cues[..at] + [cue] + cues[at..];
      id := newCueId;
    }

    /**
     * `duplicate_cue_at`: a copy of the cue's number, name and presets for the
     * given columns, inserted like `insert_cue_at`; None for an unknown id.
     */
    method DuplicateCueAt(newCueId: string, cueId: string, index: int, cols: seq<string>) returns (id: Option<string>)
      requires Valid()
      modifies this`cues
      ensures old(CueById(cueId)).None? <==> id.None?
      ensures id.None? ==> cues == old(cues)
      ensures id.Some? ==> id.value == newCueId
      ensures id.Some? ==> var src := old(CueById(cueId)).value;
                           var at := ClampIndex(index, |old(cues)|);
                           cues == old(cues)[..at] + [CueDict(Str(newCueId), Str(StrOf(src.name)), Str(StrOf(src.cueNumber)), Null,
                                                              Dict(DuplicatedPresets(src.presets.m, cols)), Null, Null)] + old(cues)[at..]
    {
      var source := CueById(cueId);
      if source.None? {
        return None;
      }
      var src := source.value;
      assert src in cues;
      var m := src.presets.m;
      var copied := map k | k in cols :: if k in m then m[k] else Null;
      assert InsertPresets(cols, Some(copied)) == DuplicatedPresets(m, cols);
      var newId := InsertCueAt(newCueId, index, StrOf(src.cueNumber), StrOf(src.name), cols, Some(copied));
      id := Some(newId);
    }

    /** `update_cue_field`: only "cue_number" and "name" can be set, on an existing cue. */
    method UpdateCueField(cueId: string, field: string, value: string) returns (ok: bool)
      requires Valid()
      modifies this`cues
      ensures ok <==> FirstCueWithId(old(cues), cueId).Some? && (field == "cue_number" || field == "name")
      ensures !ok ==> cues == old(cues)
      ensures ok ==> var i := FirstCueWithId(old(cues), cueId).value;
                     cues == old(cues)[i := if field == "name" then old(cues)[i].(name := Str(value))
                                            else old(cues)[i].(cueNumber := Str(value))]
      ensures Valid()
    {
      var i := FirstCueWithId(cues, cueId);
      if i.None? {
        return false;
      }
      if field != "cue_number" && field != "name" {
        return false;
      }
      var c := cues[i.value];
      assert c in cues;
      cues := cues[i.value := if field == "name" then c.(name := Str(value)) else c.(cueNumber := Str(value))];
      ok := true;
      assert forall k :: 0 <= k < |cues| ==> IdOf(cues[k]) == IdOf(old(cues)[k]);
    }

    /** `update_camera_preset`: set, or with an empty or absent preset clear, one camera's preset. */
    method UpdateCameraPreset(cueId: string, cameraId: string, preset: Option<string>) returns (ok: bool)
      requires Valid()
      modifies this`cues
      ensures ok <==> FirstCueWithId(old(cues), cueId).Some?
      ensures !ok ==> cues == old(cues)
      ensures ok ==> var i := FirstCueWithId(old(cues), cueId).value;
                     var v := if preset.Some? && preset.value != "" then Str(preset.value) else Null;
                     cues == old(cues)[i := old(cues)[i].(presets := Dict(old(cues)[i].presets.m[cameraId := v]))]
      ensures Valid()
    {
      var i := FirstCueWithId(cues, cueId);
      if i.None? {
        return false;
      }
      var c := cues[i.value];
      assert c in cues;
      var v := if preset.Some? && preset.value != "" then Str(preset.value) else Null;
      cues := cues[i.value := c.(presets := Dict(c.presets.m[cameraId := v]))];
      ok := true;
      assert forall k :: 0 <= k < |cues| ==> IdOf(cues[k]) == IdOf(old(cues)[k]);
    }

    /** `remove_cue`: drop every cue with that id; true iff one was dropped. */
    method RemoveCue(cueId: string) returns (removed: bool)
      modifies this`cues
      ensures cues == WithoutCueId(old(cues), cueId)
      ensures removed <==> FirstCueWithId(old(cues), cueId).Some?
      ensures forall c :: c in cues ==> IdOf(c) != cueId
    {
      var before := |cues|;
      WithoutCueIdShrinks(cues, cueId);
      cues := WithoutCueId(cues, cueId);
      removed := |cues| != before;
    }

    /** `get_preset_for_camera`: the preset mapped for that camera, when it is a non-empty string. */
    function PresetForCamera(cueId: string, cameraId: string): (r: Option<string>)
      reads this
      ensures r.Some? <==> CueById(cueId).Some? && CueById(cueId).value.CueDict?
                           && CueById(cueId).value.presets.Dict?
                           && cameraId in CueById(cueId).value.presets.m
                           && NonEmptyStr(CueById(cueId).value.presets.m[cameraId])
      ensures r.Some? ==> r.value != "" && CueById(cueId).value.presets.m[cameraId] == Str(r.value)
    {
      match CueById(cueId)
      case None => None
      case Some(c) =>
        if c.NonDict? || !c.presets.Dict? || cameraId !in c.presets.m then None
        else
          var v := c.presets.m[cameraId];
          if NonEmptyStr(v) then Some(v.s) else None
    }
  }

  /** Setting a camera's preset and reading it back gives the preset, or nothing after a clear. */
  method PresetRoundTrip(store: Cues, cueId: string, cameraId: string, preset: Option<string>)
    returns (read: Option<string>)
    requires store.Valid() && store.CueById(cueId).Some?
    modifies store`cues
    ensures preset.Some? && preset.value != "" ==> read == preset
    ensures !(preset.Some? && preset.value != "") ==> read == None
  {
    var ok := store.UpdateCameraPreset(cueId, cameraId, preset);
    var i := FirstCueWithId(old(store.cues), cueId).value;
    assert FirstCueWithId(store.cues, cueId) == Some(i) by {
      assert forall k :: 0 <= k < |store.cues| ==> IdOf(store.cues[k]) == IdOf(old(store.cues)[k]);
    }
    read := store.PresetForCamera(cueId, cameraId);
  }
}
