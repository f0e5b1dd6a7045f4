/**
 * The video display sizes offered for a camera tile and the stored
 * pan/tilt/zoom preset with its dictionary form.
 */
module Video {
  import opened Wrappers
  import Text

  /** A display size preset: its label and its pixel dimensions. */
  datatype VideoSize = VideoSize(name: string, width: int, height: int)

  /** `VideoSize.presets()`: five sizes, all 16:9, with strictly increasing widths. */
  function Presets(): (r: seq<VideoSize>)
    ensures |r| == 5
    ensures forall k :: 0 <= k < |r| ==> r[k].width * 9 == r[k].height * 16
    ensures forall i, j :: 0 <= i < j < |r| ==> r[i].width < r[j].width
  {
    [ VideoSize("384 x 216", 384, 216),
      VideoSize("512 x 288", 512, 288),
      VideoSize("640 x 360", 640, 360),
      VideoSize("768 x 432", 768, 432),
      VideoSize("896 x 504", 896, 504) ]
  }

  /** The label a size is shown with: "W x H". */
  function Label(width: int, height: int): string
  {
    Text.Decimal(width) + " x " + Text.Decimal(height)
  }

  /** Each size is labelled with its own dimensions. */
  lemma PresetsLabelled()
    ensures forall k :: 0 <= k < |Presets()| ==> Presets()[k].name == Label(Presets()[k].width, Presets()[k].height)
  {
    forall k | 0 <= k < |Presets()|
      ensures Presets()[k].name == Label(Presets()[k].width, Presets()[k].height)
    {
      PresetLabelled(k);
    }
  }

  lemma PresetLabelled(k: nat)
    requires k < |Presets()|
    ensures Presets()[k].name == Label(Presets()[k].width, Presets()[k].height)
  {
    var p := Presets()[k];
    if k == 0 {
      LabelOf(3, 8, 4, 2, 1, 6, p.name);
    } else if k == 1 {
      LabelOf(5, 1, 2, 2, 8, 8, p.name);
    } else if k == 2 {
      LabelOf(6, 4, 0, 3, 6, 0, p.name);
    } else if k == 3 {
      LabelOf(7, 6, 8, 4, 3, 2, p.name);
    } else {
      LabelOf(8, 9, 6, 5, 0, 4, p.name);
    }
  }

  /** The label of two three-digit dimensions, digit by digit. */
  lemma LabelOf(w1: nat, w2: nat, w3: nat, h1: nat, h2: nat, h3: nat, text: string)
    requires 1 <= w1 < 10 && w2 < 10 && w3 < 10 && 1 <= h1 < 10 && h2 < 10 && h3 < 10
    requires text == [Text.DigitChar(w1), Text.DigitChar(w2), Text.DigitChar(w3), ' ', 'x', ' ',
                      Text.DigitChar(h1), Text.DigitChar(h2), Text.DigitChar(h3)]
    ensures Label(100 * w1 + 10 * w2 + w3, 100 * h1 + 10 * h2 + h3) == text
  {
    Text.ThreeDigits(w1, w2, w3);
    Text.ThreeDigits(h1, h2, h3);
  }

  /** `VideoSize.get_default()`: the second preset, 512 by 288. */
  function GetDefault(): (r: VideoSize)
    ensures r in Presets() && r.width == 512 && r.height == 288
    ensures r.name == Label(r.width, r.height)
  {
    LabelOf(5, 1, 2, 2, 8, 8, "512 x 288");
    Presets()[1]
  }

  // ---------------------------------------------------------------------
  // CameraPreset

  /** A dictionary value as stored; `from_dict` copies values without checking their type. */
  datatype Field = Str(s: string) | Int(i: int)

  /** `CameraPreset`: the fields hold whatever was passed in. */
  datatype CameraPreset = CameraPreset(name: Field, pan: Field, tilt: Field, zoom: Field)

  /** The constructor with pan, tilt and zoom left at their default 0. */
  function NamedPreset(name: string): (p: CameraPreset)
    ensures p.name == Str(name) && p.pan == Int(0) && p.tilt == Int(0) && p.zoom == Int(0)
  {
    CameraPreset(Str(name), Int(0), Int(0), Int(0))
  }

  /** `to_dict`: the four keys. */
  function ToDict(p: CameraPreset): (d: map<string, Field>)
    ensures d.Keys == {"name", "pan", "tilt", "zoom"}
    ensures d["name"] == p.name && d["pan"] == p.pan && d["tilt"] == p.tilt && d["zoom"] == p.zoom
  {
    map["name" := p.name, "pan" := p.pan, "tilt" := p.tilt, "zoom" := p.zoom]
  }

  function GetOr(d: map<string, Field>, key: string, default: Field): Field
  {
    if key in d then d[key] else default
  }

  /** `from_dict`: the name is required (KeyError otherwise), the rest default to 0. */
  function FromDict(d: map<string, Field>): (r: Option<CameraPreset>)
    ensures r.None? <==> "name" !in d
    ensures r.Some? ==> r.value.name == d["name"]
    ensures r.Some? ==> r.value.pan == (if "pan" in d then d["pan"] else Int(0))
    ensures r.Some? ==> r.value.tilt == (if "tilt" in d then d["tilt"] else Int(0))
    ensures r.Some? ==> r.value.zoom == (if "zoom" in d then d["zoom"] else Int(0))
  {
    if "name" !in d then None
    else Some(CameraPreset(d["name"], GetOr(d, "pan", Int(0)), GetOr(d, "tilt", Int(0)), GetOr(d, "zoom", Int(0))))
  }

  /** `from_dict(p.to_dict())` gives back the same preset. */
  lemma PresetRoundTrip(p: CameraPreset)
    ensures FromDict(ToDict(p)) == Some(p)
  {
  }

  /** A dictionary with only a name gives a preset at pan, tilt and zoom 0. */
  lemma NameOnlyDefaults(name: string)
    ensures FromDict(map["name" := Str(name)]) == Some(NamedPreset(name))
  {
  }

  /** Turning a dictionary with all four keys into a preset and back gives the same dictionary. */
  lemma DictRoundTrip(d: map<string, Field>)
    requires d.Keys == {"name", "pan", "tilt", "zoom"}
    ensures FromDict(d).Some? && ToDict(FromDict(d).value) == d
  {
  }
}
