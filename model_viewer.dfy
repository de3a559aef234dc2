/**
 * The viewer for a loaded glTF scene: every Mesh anywhere in the cloned scene
 * becomes a part whose rest position is its WORLD position and whose
 * direction points away from the scene's bounding-box centre; every frame
 * the part's LOCAL position is drawn toward its target with damping 0.1.
 */
module ModelViewer {
  import opened Wrappers
  import opened Vectors
  import opened SceneGraph
  import opened Explode
  import opened UseModelStore

  /** Fraction of the remaining gap closed per frame. */
  const Damping: real := 0.1
  /** A normalised offset shorter than this counts as "at the centre". */
  const CentreThreshold: real := 0.01

  /**
   * A part's explode direction: the normalised offset of its world position
   * from the centre, or, when that is (nearly) zero, the normalised random
   * vector `random` (the source draws each coordinate from `Math.random() - 0.5`).
   */
  function Direction(g: Geometry, worldPos: Vec3, center: Vec3, random: Vec3): (d: Vec3)
    ensures d == g.normalize(Sub(worldPos, center)) || d == g.normalize(random)
    ensures g.length(g.normalize(random)) >= CentreThreshold ==> g.length(d) >= CentreThreshold
    ensures g.length(g.normalize(Sub(worldPos, center))) >= CentreThreshold ==> d == g.normalize(Sub(worldPos, center))
    ensures g.length(g.normalize(Sub(worldPos, center))) < CentreThreshold ==> d == g.normalize(random)
  {
    var direction := g.normalize(Sub(worldPos, center));
    if g.length(direction) < CentreThreshold then g.normalize(random) else direction
  }

  /** The record made for the `k`-th Mesh met by the traversal; `random(k)` is its random draw. */
  function ViewerPart(n: Scene, k: nat, g: Geometry, center: Vec3, random: nat -> Vec3): PartData {
    PartData(n.obj, n.worldPosition, Direction(g, n.worldPosition, center, random(k)))
  }

  /** The records for the meshes `ms`, the `k`-th with the `k`-th random draw. */
  function ViewerParts(ms: seq<Scene>, g: Geometry, center: Vec3, random: nat -> Vec3): (r: seq<PartData>)
    ensures |r| == |ms|
  {
    seq(|ms|, k requires 0 <= k < |ms| => ViewerPart(ms[k], k, g, center, random))
  }

  lemma ViewerPartsSnoc(ms: seq<Scene>, n: Scene, g: Geometry, center: Vec3, random: nat -> Vec3)
    ensures ViewerParts(ms + [n], g, center, random) == ViewerParts(ms, g, center, random) + [ViewerPart(n, |ms|, g, center, random)]
  {
  }

  /** The traversal callback over the visited nodes `nodes`: push a record for every Mesh. */
  method CollectMeshes(nodes: seq<Scene>, g: Geometry, center: Vec3, random: nat -> Vec3) returns (collected: seq<PartData>)
    ensures collected == ViewerParts(Select(MeshInstances, nodes), g, center, random)
  {
    collected := [];
    var i := 0;
    while i < |nodes|
      invariant 0 <= i <= |nodes|
      invariant collected == ViewerParts(Select(MeshInstances, nodes[..i]), g, center, random)
    {
      var child := nodes[i];
      assert nodes[..i + 1][..i] == nodes[..i];
      ghost var before := Select(MeshInstances, nodes[..i]);
      if child.obj.isMesh {
        var worldPos := child.worldPosition;
        var direction := g.normalize(Sub(worldPos, center));
        if g.length(direction) < CentreThreshold {
          direction := g.normalize(random(|collected|));
        }
        ViewerPartsSnoc(before, child, g, center, random);
        collected := collected + [PartData(child.obj, worldPos, direction)];
        assert Select(MeshInstances, nodes[..i + 1]) == before + [child];
      } else {
        assert Select(MeshInstances, nodes[..i + 1]) == before;
      }
      i := i + 1;
    }
    assert nodes[..|nodes|] == nodes;
  }

  /** One mounted `ModelViewer`: its `partsRef`. */
  class Instance {
    var parts: seq<PartData>

    ghost predicate Valid()
      reads this
    {
      DistinctParts(parts)
    }

    constructor()
      ensures Valid() && parts == []
    {
      parts := [];
    }

    /**
     * The effect that runs whenever the cloned scene changes. `center` is the
     * bounding-box centre of the scene and `random` the random draws. It
     * records every Mesh of the tree in traversal order and clears the
     * store's loading flag; there is no once-only guard.
     */
    method CollectEffect(clonedScene: Option<Scene>, center: Vec3, g: Geometry, random: nat -> Vec3, store: ModelStore)
      requires Valid()
      requires clonedScene.Some? ==> DistinctNodes(Preorder(clonedScene.value))
      modifies this`parts, store`isLoading
      ensures Valid()
      ensures clonedScene.None? ==> parts == old(parts) && store.isLoading == old(store.isLoading)
      ensures clonedScene.Some? ==>
        !store.isLoading &&
        parts == ViewerParts(Select(MeshInstances, Preorder(clonedScene.value)), g, center, random)
    {
      if clonedScene.None? {
        return;
      }
      var nodes := Preorder(clonedScene.value);
      var collected := CollectMeshes(nodes, g, center, random);
      SelectDistinct(MeshInstances, nodes);
      parts := collected;
      store.SetIsLoading(false);
    }

    /**
     * One frame: each part's local position moves 0.1 of the way to a target
     * built from its world rest position; the records stay as they are.
     */
    method Frame(store: ModelStore)
      requires Valid()
      modifies ObjectsOf(parts)
      ensures parts == old(parts)
      ensures forall k :: 0 <= k < |parts| ==>
        parts[k].obj.position == Lerp(old(parts[k].obj.position), Target(parts[k], store.explodeLevel), Damping)
    {
      LerpParts(parts, store.explodeLevel, Damping);
    }
  }

  /**
   * Every Mesh in the cloned scene becomes a part, however deep: here a Mesh
   * that is a grandchild of the root.
   */
  lemma GrandchildMeshCollected(root: Scene, child: Scene, grandchild: Scene)
    requires child in root.children && grandchild in child.children && grandchild.obj.isMesh
    ensures grandchild in Select(MeshInstances, Preorder(root))
  {
    ChildSubtreeVisited(root, child);
    ChildSubtreeVisited(child, grandchild);
    var nodes := Preorder(root);
    assert grandchild in nodes;
    var i :| 0 <= i < |nodes| && nodes[i] == grandchild;
  }

  /**
   * Because the rest position is a world position but the frame writes the
   * local position, a frame at level 0 leaves a part where it is exactly when
   * its local position already equals its world rest position.
   */
  lemma LevelZeroFrameMovesOffWorldParts(p: PartData, local: Vec3)
    ensures Lerp(local, Target(p, 0.0), Damping) == local <==> local == p.originalPosition
  {
    var t := Target(p, 0.0);
    if Lerp(local, t, Damping) == local {
      assert Sub(t, local) == Scale(Sub(t, local), 0.9);
    }
  }
}
