/**
 * The augmentation pipeline of `_get_augmentation_transform` in
 * src/preprocess.py: which Albumentations transforms are assembled, in which
 * order and with which parameters, from the `augmentation.transforms`
 * section of the configuration. Pixel-level behaviour of the transforms is
 * not part of this model.
 */
module Augmentation {
  import opened Wrappers
  import opened Config

  /** The transforms the pipeline can contain, with the parameters passed to them. */
  datatype Transform =
    | HorizontalFlip(probability: Value)
    | VerticalFlip(probability: Value)
    | Rotate(limit: Value, p: real)
    | RandomBrightnessContrast(brightnessLimit: Value, contrastLimit: Value, p: real)
    | GaussBlur(blurLimit: Value, p: real)

  /** The option keys, in the order the pipeline tests them. */
  const OptionKeys: seq<string> := ["horizontal_flip", "vertical_flip", "rotation", "brightness", "contrast", "blur"]

  /** `aug_config.get(key)`: the option's value, `None` when absent. */
  function OptionValue(d: map<string, Value>, slot: nat): Value
    requires slot < |OptionKeys|
  {
    Get(d, OptionKeys[slot], Null)
  }

  /** Whether the option in `slot` switches its transform on (Python truthiness). */
  predicate Enabled(d: map<string, Value>, slot: nat)
    requires slot < |OptionKeys|
  {
    Truthy(OptionValue(d, slot))
  }

  /** The transform an enabled option in `slot` contributes. */
  function Expected(d: map<string, Value>, slot: nat): Transform
    requires slot < |OptionKeys|
  {
    var v := OptionValue(d, slot);
    if slot == 0 then HorizontalFlip(v)
    else if slot == 1 then VerticalFlip(v)
    else if slot == 2 then Rotate(v, 0.5)
    else if slot == 3 then RandomBrightnessContrast(v, Int(0), 0.5)
    else if slot == 4 then RandomBrightnessContrast(Int(0), v, 0.5)
    else GaussBlur(v, 0.3)
  }

  /** The enabled option slots below `upto`, in increasing order. */
  function EnabledSlots(d: map<string, Value>, upto: nat): (s: seq<nat>)
    requires upto <= |OptionKeys|
    ensures forall i :: 0 <= i < |s| ==> s[i] < upto
  {
    if upto == 0 then []
    else EnabledSlots(d, upto - 1) + (if Enabled(d, upto - 1) then [upto - 1] else [])
  }

  /** The enabled slots are strictly increasing, and a slot is listed exactly when its option is truthy. */
  lemma {:induction false} EnabledSlotsSpec(d: map<string, Value>, upto: nat)
    requires upto <= |OptionKeys|
    ensures var s := EnabledSlots(d, upto);
      && (forall i, j :: 0 <= i < j < |s| ==> s[i] < s[j])
      && (forall k: nat :: k in s <==> k < upto && Enabled(d, k))
  {
    if upto > 0 {
      EnabledSlotsSpec(d, upto - 1);
    }
  }

  /** The transforms for a list of slots, slot by slot. */
  function Chosen(d: map<string, Value>, slots: seq<nat>): seq<Transform>
    requires forall i :: 0 <= i < |slots| ==> slots[i] < |OptionKeys|
  {
    if slots == [] then [] else Chosen(d, slots[..|slots| - 1]) + [Expected(d, slots[|slots| - 1])]
  }

  /** `Chosen` lists one transform per slot, slot by slot. */
  lemma {:induction false} ChosenSpec(d: map<string, Value>, slots: seq<nat>)
    requires forall i :: 0 <= i < |slots| ==> slots[i] < |OptionKeys|
    ensures |Chosen(d, slots)| == |slots|
    ensures forall i :: 0 <= i < |slots| ==> Chosen(d, slots)[i] == Expected(d, slots[i])
  {
    if slots != [] {
      ChosenSpec(d, slots[..|slots| - 1]);
    }
  }

  /** The pipeline assembled from the options below slot `upto`, one conditional append per slot. */
  function Pipeline(d: map<string, Value>, upto: nat): seq<Transform>
    requires upto <= |OptionKeys|
  {
    if upto == 0 then []
    else Pipeline(d, upto - 1) + (if Enabled(d, upto - 1) then [Expected(d, upto - 1)] else [])
  }

  /** The appends assemble exactly the transforms of the enabled slots, in slot order. */
  lemma {:induction false} PipelineIsChosen(d: map<string, Value>, upto: nat)
    requires upto <= |OptionKeys|
    ensures Pipeline(d, upto) == Chosen(d, EnabledSlots(d, upto))
  {
    if upto > 0 {
      PipelineIsChosen(d, upto - 1);
      var s := EnabledSlots(d, upto - 1);
      if Enabled(d, upto - 1) {
        assert (s + [upto - 1])[..|s|] == s;
      } else {
        assert s + [] == s;
      }
    }
  }

  /** The slot of the `blur` option. */
  const BlurSlot: nat := 5

  /**
   * Whether building the pipeline raises. A transforms section that is not a
   * dictionary has no `.get`. A truthy `blur` option looks up `A.GaussBlur`,
   * which the Albumentations module does not define (its Gaussian blur is
   * `GaussianBlur`), so the attribute lookup raises.
   */
  predicate PipelineRaises(augConfig: Value)
  {
    !augConfig.Dict? || Truthy(Get(augConfig.entries, "blur", Null))
  }

  /** Without a truthy `blur` option, the chosen transforms hold no blur. */
  lemma BuiltPipelineHasNoBlur(d: map<string, Value>)
    requires !PipelineRaises(Dict(d))
    ensures forall i :: 0 <= i < |Chosen(d, EnabledSlots(d, |OptionKeys|))| ==>
      !Chosen(d, EnabledSlots(d, |OptionKeys|))[i].GaussBlur?
  {
    var slots := EnabledSlots(d, |OptionKeys|);
    assert OptionKeys[BlurSlot] == "blur";
    ChosenSpec(d, slots);
    EnabledSlotsSpec(d, |OptionKeys|);
    forall i | 0 <= i < |slots|
      ensures !Expected(d, slots[i]).GaussBlur?
    {
      assert slots[i] in slots;
    }
  }

  /**
   * `_get_augmentation_transform`: one transform per truthy option, in the
   * fixed order flip, flip, rotate, brightness, contrast. It raises (`None`
   * here) when the section is not a dictionary or `blur` is truthy, so a
   * pipeline that is built never holds a blur.
   */
  method GetAugmentationTransform(augConfig: Value) returns (r: Option<seq<Transform>>)
    ensures r.None? <==> PipelineRaises(augConfig)
    ensures r.Some? ==> r.value == Chosen(augConfig.entries, EnabledSlots(augConfig.entries, |OptionKeys|))
    ensures r.Some? ==> forall i :: 0 <= i < |r.value| ==> !r.value[i].GaussBlur?
  {
    if !augConfig.Dict? {
      return None;
    }
    var d := augConfig.entries;
    var transforms: seq<Transform> := [];
    assert OptionKeys[0] == "horizontal_flip";
    if Truthy(Get(d, "horizontal_flip", Null)) {
      transforms := transforms + [HorizontalFlip(d["horizontal_flip"])];
    }
    assert transforms == Pipeline(d, 1);
    assert OptionKeys[1] == "vertical_flip";
    if Truthy(Get(d, "vertical_flip", Null)) {
      transforms := transforms + [VerticalFlip(d["vertical_flip"])];
    }
    assert transforms == Pipeline(d, 2);
    assert OptionKeys[2] == "rotation";
    if Truthy(Get(d, "rotation", Null)) {
      transforms := transforms + [Rotate(d["rotation"], 0.5)];
    }
    assert transforms == Pipeline(d, 3);
    assert OptionKeys[3] == "brightness";
    if Truthy(Get(d, "brightness", Null)) {
      transforms := transforms + [RandomBrightnessContrast(d["brightness"], Int(0), 0.5)];
    }
    assert transforms == Pipeline(d, 4);
    assert OptionKeys[4] == "contrast";
    if Truthy(Get(d, "contrast", Null)) {
      transforms := transforms + [RandomBrightnessContrast(Int(0), d["contrast"], 0.5)];
    }
    assert transforms == Pipeline(d, 5);
    assert OptionKeys[5] == "blur";
    if Truthy(Get(d, "blur", Null)) {
      return None;
    }
    assert transforms + [] == Pipeline(d, 6);
    PipelineIsChosen(d, |OptionKeys|);
    BuiltPipelineHasNoBlur(d);
    return Some(transforms);
  }
}
