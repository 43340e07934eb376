/** The table of named starting configurations, and lookup by name and by
    category. */
module Presets {
  import opened Numerics
  import opened Wrappers
  import opened Pendulum

  /** A named starting configuration: an initial state and parameters. */
  datatype PendulumPreset = PendulumPreset(
    name: string,
    description: string,
    initialState: PendulumState,
    params: PendulumParams)

  datatype PresetCategory = Basic | Chaotic | Physical | Extreme

  /** The number of presets in the table. */
  const PRESET_COUNT: nat := 8

  function PresetName(k: nat): string
    requires k < PRESET_COUNT
  {
    if k == 0 then "Small Angle"
    else if k == 1 then "Classic Chaos"
    else if k == 2 then "High Energy"
    else if k == 3 then "Unequal Masses"
    else if k == 4 then "Unequal Lengths"
    else if k == 5 then "Damped System"
    else if k == 6 then "Low Gravity"
    else "Near Circular"
  }

  function PresetDescription(k: nat): string
    requires k < PRESET_COUNT
  {
    if k == 0 then "Small angle oscillation - predictable behavior"
    else if k == 1 then "Classic chaotic motion with equal masses"
    else if k == 2 then "High energy chaotic motion - complex trajectories"
    else if k == 3 then "Heavy bottom mass creates interesting dynamics"
    else if k == 4 then "Different arm lengths create asymmetric motion"
    else if k == 5 then "Damped motion shows energy dissipation"
    else if k == 6 then "Moon-like gravity creates slower, extended motion"
    else "High initial velocity creates near-circular motion"
  }

  /** Initial angles θ1, θ2 and angular velocities ω1, ω2. */
  function PresetState(k: nat): PendulumState
    requires k < PRESET_COUNT
  {
    if k == 0 then PendulumState(-0.2, -0.1, 0.0, 0.0)
    else if k == 1 then PendulumState(-PI / 2.0, -PI / 3.0, 0.0, 0.0)
    else if k == 2 then PendulumState(-PI * 0.7, -PI * 0.8, 1.0, -0.5)
    else if k == 3 then PendulumState(-PI / 3.0, -PI / 4.0, 0.0, 0.0)
    else if k == 4 then PendulumState(-PI / 4.0, -PI / 3.0, 0.0, 0.0)
    else if k == 5 then PendulumState(-PI / 2.0, -PI / 4.0, 0.0, 0.0)
    else if k == 6 then PendulumState(-PI / 3.0, -PI / 2.0, 0.0, 0.0)
    else PendulumState(0.0, 0.0, 3.0, 4.0)
  }

  /** Masses, arm lengths, gravity and damping. */
  function PresetParams(k: nat): PendulumParams
    requires k < PRESET_COUNT
  {
    if k == 3 then PendulumParams(1.0, 3.0, 1.0, 1.0, 9.81, 0.0)
    else if k == 4 then PendulumParams(1.0, 1.0, 1.5, 0.8, 9.81, 0.0)
    else if k == 5 then PendulumParams(1.0, 1.0, 1.0, 1.0, 9.81, 0.1)
    else if k == 6 then PendulumParams(1.0, 1.0, 1.0, 1.0, 1.62, 0.0)
    else DefaultParams()
  }

  /** The eight presets, in table order. */
  function AllPresets(): (r: seq<PendulumPreset>)
    ensures |r| == PRESET_COUNT
    ensures forall k :: 0 <= k < PRESET_COUNT ==>
              r[k] == PendulumPreset(PresetName(k), PresetDescription(k), PresetState(k), PresetParams(k))
  {
    seq(PRESET_COUNT, k requires 0 <= k < PRESET_COUNT =>
      PendulumPreset(PresetName(k), PresetDescription(k), PresetState(k), PresetParams(k)))
  }

  /** Every preset has parameters that pass validation. */
  lemma PresetsValidate()
    ensures forall k :: 0 <= k < |AllPresets()| ==> Validate(AllPresets()[k].params) == Ok(())
  {
    hide PresetName, PresetDescription, PresetState;
    forall k | 0 <= k < PRESET_COUNT
      ensures ValidParams(PresetParams(k))
    {
    }
  }

  /** Every preset has a name and a description. */
  lemma PresetsDescribed()
    ensures forall k :: 0 <= k < |AllPresets()| ==> AllPresets()[k].name != [] && AllPresets()[k].description != []
  {
    hide PresetName, PresetDescription, PresetState, PresetParams;
    forall k | 0 <= k < PRESET_COUNT
      ensures 0 < |PresetName(k)| && 0 < |PresetDescription(k)|
    {
      if k < 4 {
        EarlyTextsNonEmpty(k);
      } else {
        LateTextsNonEmpty(k);
      }
    }
  }

  lemma EarlyTextsNonEmpty(k: nat)
    requires k < 4
    ensures 0 < |PresetName(k)| && 0 < |PresetDescription(k)|
  {
    hide PresetState, PresetParams;
  }

  lemma LateTextsNonEmpty(k: nat)
    requires 4 <= k < PRESET_COUNT
    ensures 0 < |PresetName(k)| && 0 < |PresetDescription(k)|
  {
    hide PresetState, PresetParams;
  }

  /** No two presets share a name: the first and ninth letters tell them
      apart. */
  lemma PresetNamesDistinct()
    ensures forall j, k :: 0 <= j < k < |AllPresets()| ==> AllPresets()[j].name != AllPresets()[k].name
  {
    hide PresetDescription, PresetState, PresetParams;
    forall j, k | 0 <= j < k < PRESET_COUNT
      ensures PresetName(j) != PresetName(k)
    {
      assert PresetName(j)[0] != PresetName(k)[0] || PresetName(j)[8] != PresetName(k)[8];
    }
  }

  /** The index of the first preset in ps called `name`. */
  function FindByName(ps: seq<PendulumPreset>, name: string): (r: Option<nat>)
    ensures r.Some? ==> r.value < |ps| && ps[r.value].name == name
    ensures r.Some? ==> forall k :: 0 <= k < r.value ==> ps[k].name != name
    ensures r.None? <==> forall k :: 0 <= k < |ps| ==> ps[k].name != name
  {
    if |ps| == 0 then None
    else if ps[0].name == name then Some(0)
    else
      match FindByName(ps[1..], name)
      case None => None
      case Some(k) => Some(k + 1)
  }

  /** The first preset whose name equals `name` exactly, or `None`. */
  function PresetByName(name: string): (r: Option<PendulumPreset>)
    ensures r.Some? ==> r.value.name == name && r.value in AllPresets()
    ensures r.None? <==> forall k :: 0 <= k < |AllPresets()| ==> AllPresets()[k].name != name
  {
    match FindByName(AllPresets(), name)
    case None => None
    case Some(k) => Some(AllPresets()[k])
  }

  /** Looking up any preset's own name gives back that preset. */
  lemma PresetByNameRoundTrip(k: nat)
    requires k < |AllPresets()|
    ensures PresetByName(AllPresets()[k].name) == Some(AllPresets()[k])
  {
    hide PresetName, PresetDescription, PresetState, PresetParams;
    PresetNamesDistinct();
  }

  /** "Small Angle" is found and "Nonexistent" is not. */
  lemma PresetByNameExamples()
    ensures PresetByName("Small Angle").Some? && PresetByName("Small Angle").value.name == "Small Angle"
    ensures PresetByName("Nonexistent").None?
  {
    hide PresetDescription, PresetState, PresetParams;
    PresetByNameRoundTrip(0);
    var all := AllPresets();
    forall k | 0 <= k < |all|
      ensures all[k].name != "Nonexistent"
    {
      assert all[k].name[0] != 'N' || all[k].name[1] != 'o';
    }
  }

  /** The presets of a category, picked from the table by position. */
  function PresetsByCategory(c: PresetCategory): (r: seq<PendulumPreset>)
    ensures |r| == if c == Basic then 2 else 3
  {
    var all := AllPresets();
    match c
    case Basic => [all[0], all[1]]
    case Chaotic => [all[1], all[2], all[7]]
    case Physical => [all[3], all[4], all[5]]
    case Extreme => [all[2], all[6], all[7]]
  }

  /** Every category is non-empty and holds presets of the table. */
  lemma CategoriesFromTable(c: PresetCategory)
    ensures 0 < |PresetsByCategory(c)|
    ensures forall k :: 0 <= k < |PresetsByCategory(c)| ==> PresetsByCategory(c)[k] in AllPresets()
  {
    hide PresetName, PresetDescription, PresetState, PresetParams;
    var all := AllPresets();
    assert all[0] in all && all[1] in all && all[2] in all && all[3] in all;
    assert all[4] in all && all[5] in all && all[6] in all && all[7] in all;
  }

  /** The names of a sequence of presets. */
  function Names(ps: seq<PendulumPreset>): (r: seq<string>)
    ensures |r| == |ps|
    ensures forall k :: 0 <= k < |ps| ==> r[k] == ps[k].name
  {
    seq(|ps|, k requires 0 <= k < |ps| => ps[k].name)
  }

  /** Each category holds the presets it is documented to hold. */
  lemma CategoryContents()
    ensures Names(PresetsByCategory(Basic)) == ["Small Angle", "Classic Chaos"]
    ensures Names(PresetsByCategory(Chaotic)) == ["Classic Chaos", "High Energy", "Near Circular"]
    ensures Names(PresetsByCategory(Physical)) == ["Unequal Masses", "Unequal Lengths", "Damped System"]
    ensures Names(PresetsByCategory(Extreme)) == ["High Energy", "Low Gravity", "Near Circular"]
  {
    hide PresetDescription, PresetState, PresetParams;
  }

  /** Every preset belongs to at least one category. */
  lemma EveryPresetCategorised(k: nat)
    requires k < |AllPresets()|
    ensures exists c: PresetCategory :: AllPresets()[k] in PresetsByCategory(c)
  {
    hide PresetName, PresetDescription, PresetState, PresetParams;
    var all := AllPresets();
    if k <= 1 {
      assert all[k] in PresetsByCategory(Basic);
    } else if k == 2 || k == 7 {
      assert all[k] in PresetsByCategory(Chaotic);
    } else if k == 6 {
      assert all[k] in PresetsByCategory(Extreme);
    } else {
      assert all[k] in PresetsByCategory(Physical);
    }
  }
}
