/**
 * The part-registry hook: once per hook instance, walk the loaded scene and
 * register every Mesh node and every Group node without children, in
 * traversal order, naming unnamed ones `part_<k>` after the number of parts
 * already registered; then publish the list and clear the loading flag.
 */
module UseModelLoader {
  import opened Wrappers
  import opened SceneGraph
  import opened UseModelStore

  /** Prefix of the synthetic name given to an unnamed part. */
  const SyntheticPrefix: string := "part_"

  function Digit(d: nat): char
    requires d < 10
  {
    (48 + d) as char
  }

  /** The decimal text of a non-negative integer, as a JavaScript template literal writes it. */
  function NatToString(n: nat): (s: string)
    ensures |s| >= 1
    ensures forall i :: 0 <= i < |s| ==> '0' <= s[i] <= '9'
    decreases n
  {
    if n < 10 then [Digit(n)] else NatToString(n / 10) + [Digit(n % 10)]
  }

  /** Different numbers have different decimal texts. */
  lemma {:induction false} NatToStringInjective(a: nat, b: nat)
    requires NatToString(a) == NatToString(b)
    ensures a == b
    decreases a
  {
    var sa, sb := NatToString(a), NatToString(b);
    if a >= 10 && b >= 10 {
      assert sa[..|sa| - 1] == NatToString(a / 10);
      assert sb[..|sb| - 1] == NatToString(b / 10);
      NatToStringInjective(a / 10, b / 10);
      assert Digit(a % 10) == sa[|sa| - 1] == sb[|sb| - 1] == Digit(b % 10);
    } else if a < 10 && b < 10 {
      assert Digit(a) == sa[0] == sb[0] == Digit(b);
    }
  }

  /** `child.name || \`part_${parts.length}\``: an empty name is falsy. */
  function PartName(name: string, index: nat): (r: string)
    ensures r != ""
    ensures name != "" ==> r == name
    ensures name == "" ==>
      |r| > |SyntheticPrefix| && r[..|SyntheticPrefix|] == SyntheticPrefix &&
      forall i :: |SyntheticPrefix| <= i < |r| ==> '0' <= r[i] <= '9'
  {
    if name != "" then name else SyntheticPrefix + NatToString(index)
  }

  /**
   * The list the traversal callback builds over the visited nodes `nodes`,
   * step by step as the source does: a kept node is appended under a name
   * that uses the length of the list so far.
   */
  function LoaderParts(nodes: seq<Scene>): (r: seq<ModelPart>)
    ensures |r| == |Select(LoaderNodes, nodes)|
  {
    if nodes == [] then []
    else
      var prev, n := LoaderParts(nodes[..|nodes| - 1]), nodes[|nodes| - 1];
      if Selects(LoaderNodes, n) then prev + [ModelPart(PartName(n.obj.name, |prev|), n.obj, n.worldPosition)]
      else prev
  }

  /**
   * The `k`-th registered part is the `k`-th kept node, with its world
   * position, under its own name or, when it has none, `part_<k>`: the
   * synthetic index is the part's position in the list.
   */
  lemma {:induction false} LoaderPartsIndexed(nodes: seq<Scene>)
    ensures forall k :: 0 <= k < |LoaderParts(nodes)| ==>
      var n := Select(LoaderNodes, nodes)[k];
      LoaderParts(nodes)[k] == ModelPart(PartName(n.obj.name, k), n.obj, n.worldPosition)
    decreases |nodes|
  {
    if nodes != [] {
      var init, last := nodes[..|nodes| - 1], nodes[|nodes| - 1];
      LoaderPartsIndexed(init);
      var prev, kept := LoaderParts(init), Select(LoaderNodes, init);
      forall k | 0 <= k < |LoaderParts(nodes)|
        ensures var n := Select(LoaderNodes, nodes)[k];
          LoaderParts(nodes)[k] == ModelPart(PartName(n.obj.name, k), n.obj, n.worldPosition)
      {
        if k < |prev| {
          assert LoaderParts(nodes)[k] == prev[k];
          assert Select(LoaderNodes, nodes)[k] == kept[k];
        } else {
          assert Selects(LoaderNodes, last) && k == |prev|;
          assert Select(LoaderNodes, nodes)[k] == last;
        }
      }
    }
  }

  /** Two unnamed parts never receive the same synthetic name. */
  lemma SyntheticNamesDistinct(nodes: seq<Scene>, i: nat, j: nat)
    requires i < j < |Select(LoaderNodes, nodes)|
    requires Select(LoaderNodes, nodes)[i].obj.name == "" && Select(LoaderNodes, nodes)[j].obj.name == ""
    ensures LoaderParts(nodes)[i].name != LoaderParts(nodes)[j].name
  {
    LoaderPartsIndexed(nodes);
    var a, b := LoaderParts(nodes)[i].name, LoaderParts(nodes)[j].name;
    if a == b {
      assert a[|SyntheticPrefix|..] == b[|SyntheticPrefix|..];
      NatToStringInjective(i, j);
    }
  }

  /** A registry never has more parts than the scene has nodes. */
  lemma LoaderPartsBounded(scene: Scene)
    ensures |LoaderParts(Preorder(scene))| <= |Preorder(scene)|
  {
  }

  /**
   * The registry and the viewer pick parts differently: a skinned mesh (a
   * mesh whose type is not "Mesh") is a viewer part but never a registry
   * part, and a childless Group is a registry part but never a viewer part.
   */
  lemma RegistryAndViewerDiffer(n: Scene)
    ensures n.obj.isMesh && n.obj.kind == "SkinnedMesh" ==>
      Selects(MeshInstances, n) && !Selects(LoaderNodes, n)
    ensures !n.obj.isMesh && n.obj.kind == "Group" && n.children == [] ==>
      Selects(LoaderNodes, n) && !Selects(MeshInstances, n)
  {
  }

  /** The `traverse` callback over the visited nodes `nodes`, building the registry. */
  method Register(nodes: seq<Scene>) returns (parts: seq<ModelPart>)
    ensures parts == LoaderParts(nodes)
  {
    parts := [];
    var i := 0;
    while i < |nodes|
      invariant 0 <= i <= |nodes|
      invariant parts == LoaderParts(nodes[..i])
    {
      var child := nodes[i];
      assert nodes[..i + 1][..i] == nodes[..i];
      if child.obj.kind == "Mesh" || child.obj.kind == "Group" {
        if |child.children| == 0 || child.obj.kind == "Mesh" {
          var worldPosition := child.worldPosition;
          var name := if child.obj.name != "" then child.obj.name else SyntheticPrefix + NatToString(|parts|);
          parts := parts + [ModelPart(name, child.obj, worldPosition)];
        }
      }
      i := i + 1;
    }
    assert nodes[..|nodes|] == nodes;
  }

  /**
   * One mounted hook: its `initialized` ref, which lives as long as the
   * hook, across every scene `useGLTF` hands it.
   */
  class Instance {
    var initialized: bool

    constructor()
      ensures !initialized
    {
      initialized := false;
    }

    /**
     * The effect, run with the scene of the current render. Without a scene,
     * or once it has run, it does nothing: a scene arriving after a run
     * without one is still registered, but a later scene (a new model) is
     * ignored and the store keeps the first model's parts. Otherwise it
     * replaces the store's part list with the registry of the scene and
     * clears the loading flag; the explode level is untouched.
     */
    method LoadEffect(scene: Option<Scene>, store: ModelStore)
      modifies this`initialized, store`modelParts, store`isLoading
      ensures old(initialized) || scene.None? ==>
        initialized == old(initialized) && store.modelParts == old(store.modelParts) && store.isLoading == old(store.isLoading)
      ensures !old(initialized) && scene.Some? ==>
        initialized && store.modelParts == LoaderParts(Preorder(scene.value)) && !store.isLoading
      ensures store.explodeLevel == old(store.explodeLevel)
    {
      if scene.None? || initialized {
        return;
      }
      initialized := true;
      var parts := Register(Preorder(scene.value));
      store.SetModelParts(parts);
      store.SetIsLoading(false);
    }
  }

  /**
   * A run without a scene, then a run with scene `a`, then one with a new
   * scene `b`: `a` is registered and `b` is ignored.
   */
  method LoadSequence(a: Scene, b: Scene, store: ModelStore) returns (hook: Instance)
    modifies store`modelParts, store`isLoading
    ensures fresh(hook) && hook.initialized
    ensures store.modelParts == LoaderParts(Preorder(a)) && !store.isLoading
  {
    hook := new Instance();
    hook.LoadEffect(None, store);
    hook.LoadEffect(Some(a), store);
    hook.LoadEffect(Some(b), store);
  }
}
