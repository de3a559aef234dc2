/**
 * The zustand render-settings store: four groups of numeric settings
 * (bloom, ambient occlusion, material, lighting). Each group setter merges a
 * partial record into its group, `{ ...state.group, ...patch }`, and `reset`
 * puts back the defaults. A group is a map from field name to value, so
 * the object spread is map override.
 */
module UseRenderStore {

  type Group = map<string, real>

  const BloomKeys: set<string> := {"intensity", "threshold", "smoothing"}
  const AoKeys: set<string> := {"radius", "intensity"}
  const MaterialKeys: set<string> := {"roughness", "metalness", "envMapIntensity"}
  const LightingKeys: set<string> := {"keyLightIntensity", "ambientIntensity"}

  datatype RenderSettings = RenderSettings(bloom: Group, ao: Group, material: Group, lighting: Group)

  const DefaultSettings: RenderSettings := RenderSettings(
    map["intensity" := 0.5, "threshold" := 0.8, "smoothing" := 0.9],
    map["radius" := 0.5, "intensity" := 1.5],
    map["roughness" := 0.1, "metalness" := 0.9, "envMapIntensity" := 1.5],
    map["keyLightIntensity" := 2.0, "ambientIntensity" := 0.2])

  /** Every group has exactly the fields its record type declares. */
  predicate WellShaped(s: RenderSettings) {
    s.bloom.Keys == BloomKeys && s.ao.Keys == AoKeys &&
    s.material.Keys == MaterialKeys && s.lighting.Keys == LightingKeys
  }

  lemma DefaultsWellShaped()
    ensures WellShaped(DefaultSettings)
  {
  }

  /**
   * `{ ...current, ...patch }`: the supplied fields take the supplied values,
   * every other field keeps its value.
   */
  function Merge(current: Group, patch: Group): (r: Group)
    ensures r.Keys == current.Keys + patch.Keys
    ensures forall f :: f in patch ==> r[f] == patch[f]
    ensures forall f :: f in current && f !in patch ==> r[f] == current[f]
  {
    current + patch
  }

  /** A setter called with an empty partial changes nothing. */
  lemma MergeEmpty(current: Group)
    ensures Merge(current, map[]) == current
  {
  }

  /** Applying the same partial twice is applying it once. */
  lemma MergeIdempotent(current: Group, patch: Group)
    ensures Merge(Merge(current, patch), patch) == Merge(current, patch)
  {
  }

  /**
   * Two successive partials act as one in which the later one's fields win:
   * the last write of a field is what is read back.
   */
  lemma MergeLastWins(current: Group, first: Group, second: Group)
    ensures Merge(Merge(current, first), second) == Merge(current, first + second)
  {
  }

  /** A partial whose fields belong to the group keeps the group's shape. */
  lemma MergeKeepsShape(current: Group, patch: Group, keys: set<string>)
    requires current.Keys == keys && patch.Keys <= keys
    ensures Merge(current, patch).Keys == keys
  {
  }

  class RenderStore {
    var bloom: Group
    var ao: Group
    var material: Group
    var lighting: Group

    function Settings(): RenderSettings
      reads this
    {
      RenderSettings(bloom, ao, material, lighting)
    }

    ghost predicate Valid()
      reads this
    {
      WellShaped(Settings())
    }

    constructor()
      ensures Valid() && Settings() == DefaultSettings
    {
      bloom := DefaultSettings.bloom;
      ao := DefaultSettings.ao;
      material := DefaultSettings.material;
      lighting := DefaultSettings.lighting;
    }

    method SetBloom(patch: Group)
      requires Valid() && patch.Keys <= BloomKeys
      modifies this`bloom
      ensures Valid()
      ensures bloom == Merge(old(bloom), patch)
      ensures ao == old(ao) && material == old(material) && lighting == old(lighting)
    {
      bloom := Merge(bloom, patch);
    }

    method SetAO(patch: Group)
      requires Valid() && patch.Keys <= AoKeys
      modifies this`ao
      ensures Valid()
      ensures ao == Merge(old(ao), patch)
      ensures bloom == old(bloom) && material == old(material) && lighting == old(lighting)
    {
      ao := Merge(ao, patch);
    }

    method SetMaterial(patch: Group)
      requires Valid() && patch.Keys <= MaterialKeys
      modifies this`material
      ensures Valid()
      ensures material == Merge(old(material), patch)
      ensures bloom == old(bloom) && ao == old(ao) && lighting == old(lighting)
    {
      material := Merge(material, patch);
    }

    method SetLighting(patch: Group)
      requires Valid() && patch.Keys <= LightingKeys
      modifies this`lighting
      ensures Valid()
      ensures lighting == Merge(old(lighting), patch)
      ensures bloom == old(bloom) && ao == old(ao) && material == old(material)
    {
      lighting := Merge(lighting, patch);
    }

    /** Every group back to its default, from any state; a second reset changes nothing. */
    method Reset()
      modifies this
      ensures Valid() && Settings() == DefaultSettings
    {
      bloom := DefaultSettings.bloom;
      ao := DefaultSettings.ao;
      material := DefaultSettings.material;
      lighting := DefaultSettings.lighting;
    }
  }
}
