/**
 * The part of three.js's scene graph the explode logic reads: objects with a
 * name, a `type` string, whether they are `instanceof Mesh`, and a local
 * `position` that the frame loop overwrites; a tree of such objects with the
 * world position `getWorldPosition` reports at load time; and `traverse`,
 * which visits a node before its children and the children in order.
 */
module SceneGraph {
  import opened Vectors

  class Object3D {
    const name: string
    /** `Object3D.type`: "Mesh", "Group", "SkinnedMesh", "Bone", ... */
    const kind: string
    /** `instanceof Mesh`; true for Mesh and its subclasses such as SkinnedMesh. */
    const isMesh: bool
    /** The local position relative to the parent. */
    var position: Vec3

    constructor(name: string, kind: string, isMesh: bool, position: Vec3)
      ensures this.name == name && this.kind == kind && this.isMesh == isMesh
      ensures this.position == position
    {
      this.name := name;
      this.kind := kind;
      this.isMesh := isMesh;
      this.position := position;
    }
  }

  /**
   * A node of a loaded scene: its object, its world position when the model
   * was loaded, and its children in order.
   */
  datatype Scene = Scene(obj: Object3D, worldPosition: Vec3, children: seq<Scene>)

  /** The order in which `Object3D.traverse` calls its callback. */
  function Preorder(t: Scene): (r: seq<Scene>)
    ensures |r| >= 1 && r[0] == t
    decreases t, 1
  {
    [t] + PreorderAll(t.children)
  }

  function PreorderAll(ts: seq<Scene>): seq<Scene>
    decreases ts, 0
  {
    if ts == [] then [] else Preorder(ts[0]) + PreorderAll(ts[1..])
  }

  /** Every node of a subtree rooted at one of `ts` is visited. */
  lemma {:induction false} PreorderAllVisits(ts: seq<Scene>, i: nat)
    requires i < |ts|
    ensures forall n :: n in Preorder(ts[i]) ==> n in PreorderAll(ts)
    decreases ts
  {
    if i > 0 {
      PreorderAllVisits(ts[1..], i - 1);
    }
  }

  /**
   * The traversal reaches the whole subtree of every child, and so, applied
   * level by level, every node at any depth.
   */
  lemma ChildSubtreeVisited(t: Scene, c: Scene)
    requires c in t.children
    ensures forall n :: n in Preorder(c) ==> n in Preorder(t)
  {
    var i :| 0 <= i < |t.children| && t.children[i] == c;
    PreorderAllVisits(t.children, i);
  }

  /** The two node filters of the source. */
  datatype Selector =
    | MeshInstances   // `child instanceof Mesh`
    | LoaderNodes     // the `type` test of the part-registry hook

  predicate Selects(sel: Selector, n: Scene) {
    match sel
    case MeshInstances => n.obj.isMesh
    case LoaderNodes =>
      (n.obj.kind == "Mesh" || n.obj.kind == "Group") && (|n.children| == 0 || n.obj.kind == "Mesh")
  }

  /** The registry keeps exactly the Mesh nodes and the Group nodes without children. */
  lemma LoaderSelectsMeshesAndLeafGroups(n: Scene)
    ensures Selects(LoaderNodes, n) <==> n.obj.kind == "Mesh" || (n.obj.kind == "Group" && n.children == [])
  {
  }

  /** The selected nodes of `ns`, in the order they occur in `ns`. */
  function Select(sel: Selector, ns: seq<Scene>): (r: seq<Scene>)
    ensures |r| <= |ns|
    ensures forall i :: 0 <= i < |r| ==> r[i] in ns && Selects(sel, r[i])
    ensures forall i :: 0 <= i < |ns| && Selects(sel, ns[i]) ==> ns[i] in r
  {
    if ns == [] then []
    else
      var init, last := ns[..|ns| - 1], ns[|ns| - 1];
      assert ns == init + [last];
      if Selects(sel, last) then Select(sel, init) + [last] else Select(sel, init)
  }

  /** Adding a node at the end adds it to the selection exactly when it is selected. */
  lemma SelectSnoc(sel: Selector, ns: seq<Scene>, n: Scene)
    ensures Select(sel, ns + [n]) == Select(sel, ns) + (if Selects(sel, n) then [n] else [])
  {
    assert (ns + [n])[..|ns|] == ns;
  }

  /** Selection distributes over concatenation, so it never reorders nodes. */
  lemma {:induction false} SelectAppend(sel: Selector, a: seq<Scene>, b: seq<Scene>)
    ensures Select(sel, a + b) == Select(sel, a) + Select(sel, b)
    decreases |b|
  {
    if b == [] {
      assert a + b == a;
    } else {
      var b', last := b[..|b| - 1], b[|b| - 1];
      assert b == b' + [last];
      assert a + b == (a + b') + [last];
      SelectAppend(sel, a, b');
      SelectSnoc(sel, a + b', last);
      SelectSnoc(sel, b', last);
      var tail := if Selects(sel, last) then [last] else [];
      calc {
        Select(sel, a + b);
        Select(sel, a) + Select(sel, b') + tail;
        Select(sel, a) + (Select(sel, b') + tail);
      }
    }
  }

  /** The objects of the nodes `ns`. */
  function NodeObjects(ns: seq<Scene>): set<Object3D> {
    set n | n in ns :: n.obj
  }

  /** No object occurs twice: in three.js an object has at most one parent. */
  predicate DistinctNodes(ns: seq<Scene>) {
    forall i, j :: 0 <= i < j < |ns| ==> ns[i].obj != ns[j].obj
  }

  lemma {:induction false} SelectDistinct(sel: Selector, ns: seq<Scene>)
    requires DistinctNodes(ns)
    ensures DistinctNodes(Select(sel, ns))
    decreases |ns|
  {
    if ns != [] {
      var init, last := ns[..|ns| - 1], ns[|ns| - 1];
      SelectDistinct(sel, init);
      var s := Select(sel, init);
      forall i | 0 <= i < |s|
        ensures s[i].obj != last.obj
      {
        assert s[i] in init;
        var j :| 0 <= j < |init| && init[j] == s[i];
        assert ns[j] == s[i];
      }
    }
  }
}
