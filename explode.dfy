/**
 * What the two viewers share: a part's recorded rest position and explode
 * direction, the target `rest + direction * (level * 2)`, and the frame step
 * that lerps every part's live position toward its target.
 */
module Explode {
  import opened Vectors
  import opened SceneGraph

  /** Scene units a part travels along its direction at explode level 1. */
  const ExplodeDistance: real := 2.0

  /**
   * A collected part. The rest position and the direction are values (the
   * source stores clones), so nothing that moves the object changes them.
   */
  datatype PartData = PartData(obj: Object3D, originalPosition: Vec3, direction: Vec3)

  /** The position a part is drawn toward at the given explode level. */
  function Target(p: PartData, level: real): (r: Vec3)
    ensures level == 0.0 ==> r == p.originalPosition
    ensures level == 1.0 ==> r == Add(p.originalPosition, Scale(p.direction, ExplodeDistance))
  {
    Add(p.originalPosition, Scale(p.direction, level * ExplodeDistance))
  }

  /** The displacement between two levels is the direction times twice their difference. */
  lemma TargetLinear(p: PartData, a: real, b: real)
    ensures Sub(Target(p, a), Target(p, b)) == Scale(p.direction, (a - b) * ExplodeDistance)
  {
  }

  function ObjectsOf(parts: seq<PartData>): set<Object3D> {
    set p | p in parts :: p.obj
  }

  predicate DistinctParts(parts: seq<PartData>) {
    forall i, j :: 0 <= i < j < |parts| ==> parts[i].obj != parts[j].obj
  }

  /**
   * One frame: every part's live position moves the fraction `alpha` of the
   * way to its target. Only the parts' positions change.
   */
  method LerpParts(parts: seq<PartData>, level: real, alpha: real)
    requires DistinctParts(parts)
    modifies ObjectsOf(parts)
    ensures forall k :: 0 <= k < |parts| ==>
      parts[k].obj.position == Lerp(old(parts[k].obj.position), Target(parts[k], level), alpha)
  {
    var i := 0;
    while i < |parts|
      invariant 0 <= i <= |parts|
      invariant forall k :: 0 <= k < i ==>
        parts[k].obj.position == Lerp(old(parts[k].obj.position), Target(parts[k], level), alpha)
      invariant forall k :: i <= k < |parts| ==> parts[k].obj.position == old(parts[k].obj.position)
    {
      var part := parts[i];
      var targetPosition := Target(part, level);
      part.obj.position := Lerp(part.obj.position, targetPosition, alpha);
      i := i + 1;
    }
  }
}
