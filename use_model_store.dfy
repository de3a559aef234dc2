/**
 * The zustand model store: the global explode level, the loading flag and
 * the registry's part list, each with a setter that replaces that one field.
 */
module UseModelStore {
  import opened Vectors
  import opened SceneGraph

  /** A registered part: its display name, its scene object and its world position at load time. */
  datatype ModelPart = ModelPart(name: string, obj: Object3D, originalPosition: Vec3)

  class ModelStore {
    var explodeLevel: real
    var isLoading: bool
    var modelParts: seq<ModelPart>

    /** The store starts assembled, loading, and with no parts. */
    constructor()
      ensures explodeLevel == 0.0 && isLoading && modelParts == []
    {
      explodeLevel := 0.0;
      isLoading := true;
      modelParts := [];
    }

    /** Stores the level as given, without clamping it to [0, 1]. */
    method SetExplodeLevel(level: real)
      modifies this`explodeLevel
      ensures explodeLevel == level
      ensures isLoading == old(isLoading) && modelParts == old(modelParts)
    {
      explodeLevel := level;
    }

    method SetIsLoading(loading: bool)
      modifies this`isLoading
      ensures isLoading == loading
      ensures explodeLevel == old(explodeLevel) && modelParts == old(modelParts)
    {
      isLoading := loading;
    }

    /** Replaces the whole list. */
    method SetModelParts(parts: seq<ModelPart>)
      modifies this`modelParts
      ensures modelParts == parts
      ensures explodeLevel == old(explodeLevel) && isLoading == old(isLoading)
    {
      modelParts := parts;
    }
  }
}
