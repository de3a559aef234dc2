/**
 * The built-in test model: a group of six boxes whose direct Mesh children
 * are collected once, on mount, and then drawn toward their explode targets
 * every frame with damping 0.15.
 */
module TestModel {
  import opened Wrappers
  import opened Vectors
  import opened SceneGraph
  import opened Explode
  import opened UseModelStore

  /** Fraction of the remaining gap closed per frame. */
  const Damping: real := 0.15
  /** A normalised rest position shorter than this counts as "at the centre". */
  const CentreThreshold: real := 0.1

  /**
   * A part's explode direction: its normalised rest position, or straight up
   * when that vector is (nearly) zero, so that the direction is never
   * degenerate.
   */
  function Direction(g: Geometry, rest: Vec3): (d: Vec3)
    ensures d == Up || d == g.normalize(rest)
    ensures g.length(g.normalize(rest)) < CentreThreshold ==> d == Up
    ensures g.length(g.normalize(rest)) >= CentreThreshold ==> d == g.normalize(rest)
    ensures g.length(Up) >= CentreThreshold ==> g.length(d) >= CentreThreshold
    ensures FixesZero(g) && rest == Zero ==> d == Up
  {
    var direction := g.normalize(rest);
    if g.length(direction) < CentreThreshold then Up else direction
  }

  /** The record the mount effect makes for a Mesh child, from its current local position. */
  function InitialPart(o: Object3D, g: Geometry): PartData
    reads o
  {
    PartData(o, o.position, Direction(g, o.position))
  }

  /** The records for the meshes `ms`, in order. */
  function InitialParts(ms: seq<Scene>, g: Geometry): (r: seq<PartData>)
    reads NodeObjects(ms)
    ensures |r| == |ms|
  {
    seq(|ms|, k requires 0 <= k < |ms| reads NodeObjects(ms) => InitialPart(ms[k].obj, g))
  }

  lemma InitialPartsSnoc(ms: seq<Scene>, n: Scene, g: Geometry)
    ensures InitialParts(ms + [n], g) == InitialParts(ms, g) + [InitialPart(n.obj, g)]
  {
  }

  /** The `forEach` over the group's children: push a record for every Mesh child. */
  method CollectChildMeshes(children: seq<Scene>, g: Geometry) returns (collected: seq<PartData>)
    ensures collected == InitialParts(Select(MeshInstances, children), g)
  {
    collected := [];
    var i := 0;
    while i < |children|
      invariant 0 <= i <= |children|
      invariant collected == InitialParts(Select(MeshInstances, children[..i]), g)
    {
      var child := children[i];
      assert children[..i + 1][..i] == children[..i];
      ghost var before := Select(MeshInstances, children[..i]);
      if child.obj.isMesh {
        var originalPos := child.obj.position;
        var direction := g.normalize(originalPos);
        if g.length(direction) < CentreThreshold {
          direction := Up;
        }
        InitialPartsSnoc(before, child, g);
        collected := collected + [PartData(child.obj, originalPos, direction)];
        assert Select(MeshInstances, children[..i + 1]) == before + [child];
      } else {
        assert Select(MeshInstances, children[..i + 1]) == before;
      }
      i := i + 1;
    }
    assert children[..|children|] == children;
  }

  /** One mounted `TestModel`: its group ref, its `initialized` ref and its `partsRef`. */
  class Instance {
    const group: Option<Scene>
    var initialized: bool
    var parts: seq<PartData>

    ghost predicate Valid()
      reads this
    {
      (group.Some? ==> DistinctNodes(group.value.children)) && DistinctParts(parts)
    }

    constructor(group: Option<Scene>)
      requires group.Some? ==> DistinctNodes(group.value.children)
      ensures Valid()
      ensures this.group == group && !initialized && parts == []
    {
      this.group := group;
      initialized := false;
      parts := [];
    }

    /**
     * The mount effect. Without a mounted group, or once it has run, it does
     * nothing. Otherwise it records every direct child that is a Mesh, in
     * child order, with its rest position and direction, and clears the
     * store's loading flag.
     */
    method InitEffect(g: Geometry, store: ModelStore)
      requires Valid()
      modifies this`initialized, this`parts, store`isLoading
      ensures Valid()
      ensures old(initialized) || group.None? ==>
        initialized == old(initialized) && parts == old(parts) && store.isLoading == old(store.isLoading)
      ensures !old(initialized) && group.Some? ==>
        initialized && !store.isLoading &&
        parts == InitialParts(Select(MeshInstances, group.value.children), g)
    {
      if group.None? || initialized {
        return;
      }
      initialized := true;
      var children := group.value.children;
      var collected := CollectChildMeshes(children, g);
      SelectDistinct(MeshInstances, children);
      parts := collected;
      store.SetIsLoading(false);
    }

    /** One frame: each part's object moves 0.15 of the way to its target; the records stay as they are. */
    method Frame(store: ModelStore)
      requires Valid()
      modifies ObjectsOf(parts)
      ensures parts == old(parts)
      ensures forall k :: 0 <= k < |parts| ==>
        parts[k].obj.position == Lerp(old(parts[k].obj.position), Target(parts[k], store.explodeLevel), Damping)
    {
      LerpParts(parts, store.explodeLevel, Damping);
    }
  }

  /**
   * The torso sits at the origin and explodes straight up; the head at
   * (0, 1.2, 0) is drawn to (0, 3.2, 0) at level 1.
   */
  lemma TorsoAndHead(g: Geometry, torso: Object3D, head: Object3D)
    requires FixesZero(g) && g.normalize(Vec3(0.0, 1.2, 0.0)) == Up && g.length(Up) == 1.0
    requires torso.position == Zero && head.position == Vec3(0.0, 1.2, 0.0)
    ensures InitialPart(torso, g).direction == Up
    ensures Target(InitialPart(head, g), 1.0) == Vec3(0.0, 3.2, 0.0)
  {
  }
}
