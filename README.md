# Exploded-view part model

A Dafny model of the logic behind a React / three.js viewer that shows a
multi-part 3D model either assembled or "exploded": every part is pushed
away from the model along its own direction by a global explode level
between 0 and 1.

The model covers:

- the two part collectors: the built-in test model, which collects its
  direct Mesh children once, and the glTF viewer, which collects every Mesh
  of the cloned scene with a direction away from the bounding-box centre;
- the explode target `rest + direction * (level * 2)` and the per-frame
  `lerp` that draws each part toward it (damping 0.15 and 0.1);
- the part-registry hook, which walks the scene once and registers Meshes
  and childless Groups, naming unnamed ones `part_<k>`;
- the model store (explode level, loading flag, part list) and the render
  settings store (four groups of numbers, merged by object spread, with a
  reset);
- the part list panel (selection toggle, moved and selected badges, moved
  count, deselect button, help text);
- the upload panel (case-insensitive `.gltf` / `.glb` check, object-URL
  lifecycle, drag flag, remove);
- the assembly slider (status text, percentage read-out, slider change).

Modules follow the source files: `TestModel`, `ModelViewer`,
`UseModelLoader`, `UseModelStore`, `UseRenderStore`, `MeshListPanel`,
`FileUploader`, `AssemblySlider`. Four shared modules hold what they have in
common: `Wrappers` (an `Option`), `Vectors` (`Vector3` arithmetic over reals
and `lerp`), `SceneGraph` (objects, the scene tree, `traverse` order and the
node filters) and `Explode` (the part record, the target and the frame
step).

Things that change in place are classes: `Object3D.position`, which the
frame loop overwrites; the stores; and each mounted component's refs and
state (`initialized`, `partsRef`, `error`, `isDragging`, ...). Effects,
frame callbacks and the upload panel's handlers are methods on those
classes. The slider's `handleChange` is a method on the model store it
writes. The part list panel's click and deselect handlers are functions
that return the new selection, because the selection is an input of that
panel. Pure derivations (directions, targets, names, badges, labels) are
functions.
Each collecting loop is a method proved equal to a function on sequences,
and the lemmas are stated about those functions.

Facts about the code that shape the model:

- `types/index.ts:28-42` declares a part list, a selection, moved
  positions, edit and drag flags, a reset-all and the model URL and name.
  The store (`zustand/useModelStore.ts:4-11`) implements none of them. It
  holds only the explode level, the loading flag and the part list.
- The explode level is stored as given, without clamping. Nothing resets it
  when a new model is loaded.
- The glTF viewer falls back to a random direction for a part at the centre.
  Only the test model uses straight up.
- The viewer's rest position is a world position, but the frame writes the
  local position (`ModelViewer.LevelZeroFrameMovesOffWorldParts`).
- The part-registry hook's `initialized` ref outlives the scene it is given.
  A second model's scene is never registered
  (`UseModelLoader.LoadSequence`).

## Model

| member | source | states |
|---|---|---|
| Vectors.Lerp | components/TestModel.tsx:57 | one `lerp` step leaves `1 - alpha` of the gap to the target in every coordinate; a vector at its target stays; `alpha = 1` lands on the target |
| Vectors.SettleGap | components/TestModel.tsx:49-59 | after `n` frames toward a fixed target the gap is `(1 - alpha)^n` times the first gap (0.85^n for the test model, 0.9^n for the viewer) |
| Vectors.PowUnit | components/ModelViewer.tsx:86 | for a damping in [0, 1] the remaining fraction `(1 - alpha)^n` stays in [0, 1], so the gap never grows |
| Explode.Target | components/TestModel.tsx:50-55 | at level 0 the target is the rest position exactly; at level 1 it is rest + 2 × direction |
| Explode.TargetLinear | components/ModelViewer.tsx:79-84 | moving the level from `b` to `a` moves the target by direction × 2 × (a − b) |
| Explode.LerpParts | components/TestModel.tsx:52-58 | one frame: each part's object position becomes the lerp of its old position toward that part's target; only part positions change |
| SceneGraph.Preorder | components/ModelViewer.tsx:56 | `traverse` visits the root first |
| SceneGraph.ChildSubtreeVisited | components/ModelViewer.tsx:56-72 | `traverse` reaches every node of every child's subtree |
| SceneGraph.Select | components/ModelViewer.tsx:56-57 | the filtered nodes are exactly the visited nodes that pass the test, none added |
| SceneGraph.SelectSnoc | hooks/useModelLoader.ts:23-35 | a node visited last is appended to the selection exactly when it passes the test |
| SceneGraph.SelectAppend | hooks/useModelLoader.ts:23-35 | filtering distributes over concatenation, so collected parts keep traversal order |
| SceneGraph.SelectDistinct | components/TestModel.tsx:27-43 | collecting from distinct objects yields distinct parts |
| SceneGraph.LoaderSelectsMeshesAndLeafGroups | hooks/useModelLoader.ts:24-25 | a node is registered iff its type is "Mesh", or it is a "Group" with no children |
| TestModel.Direction | components/TestModel.tsx:29-35 | straight up exactly when the normalised rest position is shorter than 0.1, otherwise the normalised rest position; up for a part at the origin |
| TestModel.Instance.constructor | components/TestModel.tsx:15-18 | a new instance holds its group, is not initialised and has no parts |
| TestModel.InitialPartsSnoc | components/TestModel.tsx:37-41 | pushing the record for a new mesh extends the list by exactly that record |
| TestModel.CollectChildMeshes | components/TestModel.tsx:27-43 | the records are exactly the direct Mesh children, in child order, each with its rest position and direction |
| TestModel.Instance.InitEffect | components/TestModel.tsx:20-47 | runs at most once and not without a group; then the parts are the direct Mesh children's records and loading is off |
| TestModel.Instance.Frame | components/TestModel.tsx:49-59 | each part moves 0.15 of the way to its target; the stored rest positions and directions do not change |
| TestModel.TorsoAndHead | components/TestModel.tsx:63-73 | the torso at the origin explodes straight up; the head at (0, 1.2, 0) targets (0, 3.2, 0) at level 1 |
| ModelViewer.Direction | components/ModelViewer.tsx:61-64 | the normalised offset from the centre when it is at least 0.01 long, otherwise the normalised random vector |
| ModelViewer.Instance.constructor | components/ModelViewer.tsx:23 | a new viewer has no parts |
| ModelViewer.ViewerPartsSnoc | components/ModelViewer.tsx:66-70 | pushing the record for a new mesh extends the list by exactly that record, with the next random draw |
| ModelViewer.CollectMeshes | components/ModelViewer.tsx:56-72 | the records are exactly the Mesh nodes in traversal order, each with its world position and direction |
| ModelViewer.Instance.CollectEffect | components/ModelViewer.tsx:47-76 | whenever the scene is present, the parts are rebuilt from every Mesh of the tree and loading is off; with no scene nothing changes |
| ModelViewer.Instance.Frame | components/ModelViewer.tsx:78-88 | each part's local position moves 0.1 of the way to its target; the records do not change |
| ModelViewer.GrandchildMeshCollected | components/ModelViewer.tsx:56-72 | a Mesh nested below a child, not only a direct child, becomes a part |
| ModelViewer.LevelZeroFrameMovesOffWorldParts | components/ModelViewer.tsx:68 | at level 0 a frame leaves a part in place iff its local position equals its recorded world position |
| UseModelLoader.NatToString | hooks/useModelLoader.ts:30 | the decimal text of the part count is non-empty and all digits |
| UseModelLoader.NatToStringInjective | hooks/useModelLoader.ts:30 | different counts give different texts |
| UseModelLoader.PartName | hooks/useModelLoader.ts:30 | a non-empty name is kept; an empty one becomes "part_" followed by digits |
| UseModelLoader.LoaderParts | hooks/useModelLoader.ts:23-36 | the registry has one part per registered node |
| UseModelLoader.LoaderPartsIndexed | hooks/useModelLoader.ts:29-33 | the `k`-th part is the `k`-th registered node, with its world position, named by its own name or `part_<k>` |
| UseModelLoader.SyntheticNamesDistinct | hooks/useModelLoader.ts:30 | two unnamed parts never get the same synthetic name |
| UseModelLoader.LoaderPartsBounded | hooks/useModelLoader.ts:23-35 | the registry never has more parts than the scene has nodes |
| UseModelLoader.RegistryAndViewerDiffer | hooks/useModelLoader.ts:24-25 | a skinned mesh is a viewer part but not a registry part; a childless Group is a registry part but not a viewer part |
| UseModelLoader.Register | hooks/useModelLoader.ts:23-36 | the traversal loop builds exactly the registry of the visited nodes |
| UseModelLoader.Instance.constructor | hooks/useModelLoader.ts:12 | a new hook has not registered anything yet |
| UseModelLoader.Instance.LoadEffect | hooks/useModelLoader.ts:14-40 | for the scene of the current render: does nothing without a scene or once it has run; otherwise the store's parts become the registry of the whole tree, loading is off and the level is untouched |
| UseModelLoader.LoadSequence | hooks/useModelLoader.ts:12-16 | a run without a scene, then scene `a`, then a new scene `b`: the store holds `a`'s registry, and `b` is ignored |
| UseModelStore.ModelStore.constructor | zustand/useModelStore.ts:4-11 | the store starts at level 0, loading, with no parts |
| UseModelStore.ModelStore.SetExplodeLevel | zustand/useModelStore.ts:6 | stores the level unclamped and changes nothing else |
| UseModelStore.ModelStore.SetIsLoading | zustand/useModelStore.ts:8 | changes only the loading flag |
| UseModelStore.ModelStore.SetModelParts | zustand/useModelStore.ts:10 | replaces the whole list and changes nothing else |
| UseRenderStore.DefaultsWellShaped | zustand/useRenderStore.ts:4-23 | the defaults have exactly the fields of each group's record type |
| UseRenderStore.Merge | zustand/useRenderStore.ts:29 | supplied fields take the supplied values, every other field keeps its value, no field is lost |
| UseRenderStore.MergeEmpty | zustand/useRenderStore.ts:27-42 | a setter called with an empty partial changes nothing |
| UseRenderStore.MergeIdempotent | zustand/useRenderStore.ts:27-42 | applying the same partial twice equals applying it once |
| UseRenderStore.MergeLastWins | zustand/useRenderStore.ts:27-42 | two successive partials act as one in which the later one's fields win |
| UseRenderStore.MergeKeepsShape | zustand/useRenderStore.ts:27-42 | a partial of the group's own fields keeps the group's shape |
| UseRenderStore.RenderStore.constructor | zustand/useRenderStore.ts:25-26 | the initial state is the defaults in all four groups |
| UseRenderStore.RenderStore.SetBloom | zustand/useRenderStore.ts:27-30 | bloom becomes the merge of the old bloom and the partial; the other three groups are unchanged |
| UseRenderStore.RenderStore.SetAO | zustand/useRenderStore.ts:31-34 | ao becomes the merge of the old ao and the partial; the other three groups are unchanged |
| UseRenderStore.RenderStore.SetMaterial | zustand/useRenderStore.ts:35-38 | material becomes the merge of the old material and the partial; the other three groups are unchanged |
| UseRenderStore.RenderStore.SetLighting | zustand/useRenderStore.ts:39-42 | lighting becomes the merge of the old lighting and the partial; the other three groups are unchanged |
| UseRenderStore.RenderStore.Reset | zustand/useRenderStore.ts:43 | from any state every group is back to its default, so a second reset changes nothing |
| MeshListPanel.HandleMeshClick | components/MeshListPanel.tsx:174-176 | the selection becomes empty iff the clicked row was selected, otherwise the clicked id |
| MeshListPanel.ClickTwiceDeselects | components/MeshListPanel.tsx:174-176 | from no selection, two clicks on one row give no selection |
| MeshListPanel.Deselect | components/MeshListPanel.tsx:219-220 | the deselect button clears the selection |
| MeshListPanel.DeselectClearsView | components/MeshListPanel.tsx:214-221 | after deselect no row carries the selected badge and the button is disabled |
| MeshListPanel.DeselectDisabled | components/MeshListPanel.tsx:221 | the deselect button is disabled with no selection, and enabled exactly when a non-empty id is selected |
| MeshListPanel.MovedCount | components/MeshListPanel.tsx:178 | the moved count is zero exactly when no part has a position, and at least one when any has |
| MeshListPanel.RenderRow | components/MeshListPanel.tsx:200-214 | a row is moved iff its id has a position; the moved badge only on moved rows that are not selected; the selected badge iff its id is the selection; never both badges |
| MeshListPanel.Render | components/MeshListPanel.tsx:193-230 | an empty list shows only the loading line; otherwise one row per mesh in order, deselect disabled iff nothing (or the empty id) is selected, help text iff edit mode |
| MeshListPanel.SelectedBadgeUnique | components/MeshListPanel.tsx:201 | with distinct ids at most one row carries the selected badge |
| MeshListPanel.ClickRow | components/MeshListPanel.tsx:174-176 | a click on a row toggles that row's selected badge and leaves no other row selected |
| MeshListPanel.MovedIdsCons | components/MeshListPanel.tsx:200 | the moved ids of a list are the first row's id, if moved, and the moved ids of the rest |
| MeshListPanel.HeadNotMovedLater | components/MeshListPanel.tsx:199-200 | with distinct ids the first row's id is not among the later rows' ids |
| MeshListPanel.MovedRowsAreMovedIds | components/MeshListPanel.tsx:199-200 | with distinct ids the number of rows marked moved is the number of distinct moved ids |
| MeshListPanel.MovedRowsAtMostMovedCount | components/MeshListPanel.tsx:178 | the moved rows never outnumber the moved count, which counts every id with a position |
| FileUploader.ToLower | components/FileUploader.tsx:201 | lower-casing keeps the length and works character by character |
| FileUploader.ToLowerAppend | components/FileUploader.tsx:201 | lower-casing distributes over concatenation |
| FileUploader.SomeSuffix | components/FileUploader.tsx:202 | true iff some listed extension ends the name |
| FileUploader.IsSupported | components/FileUploader.tsx:200-202 | a name is accepted iff its lower-cased form ends in ".gltf" or ".glb" |
| FileUploader.UpperCaseAccepted | components/FileUploader.tsx:200-202 | "MODEL.GLB" and "Robot.GlTf" are accepted |
| FileUploader.OtherFormatsRejected | components/FileUploader.tsx:200-207 | "model.obj", "model.glb.zip" and "glb" are refused |
| FileUploader.ExtensionInAnyCaseAccepted | components/FileUploader.tsx:200-202 | any stem followed by an extension in any mix of cases is accepted |
| FileUploader.Instance.constructor | components/FileUploader.tsx:189-194 | the panel starts not dragging, without error, URL or name |
| FileUploader.Instance.HandleFile | components/FileUploader.tsx:196-220 | the error is cleared; a refused file only sets the format error; an accepted one revokes the previous URL, raises loading and makes the new URL and the original-case name current; no URL leaks |
| FileUploader.Instance.HandleDrop | components/FileUploader.tsx:222-233 | the drag flag drops; the first file, if any, is handled; with no file nothing else changes |
| FileUploader.Instance.HandleDragOver | components/FileUploader.tsx:235-238 | the drag flag is raised |
| FileUploader.Instance.HandleDragLeave | components/FileUploader.tsx:240-243 | the drag flag drops |
| FileUploader.Instance.HandleInputChange | components/FileUploader.tsx:245-253 | the first chosen file, if any, is handled; with no file nothing changes |
| FileUploader.Instance.HandleRemove | components/FileUploader.tsx:255-266 | the current URL is revoked and URL, name and error cleared; a mounted input is emptied; every URL ever created has then been revoked |
| AssemblySlider.StatusOf | components/AssemblySlider.tsx:86-90 | assembled iff the level is exactly 0, fully separated iff exactly 1, separating otherwise |
| AssemblySlider.StatusText | components/AssemblySlider.tsx:86-90 | "조립됨" iff level 0, "완전 분리" iff level 1, "분리 중..." otherwise |
| AssemblySlider.Round | components/AssemblySlider.tsx:96 | `Math.round` lands within half a unit of its argument |
| AssemblySlider.DisplayPercent | components/AssemblySlider.tsx:96 | the read-out is within half a point of `level × 100` |
| AssemblySlider.PercentInRange | components/AssemblySlider.tsx:96 | a level in [0, 1] shows a percentage in 0..100 |
| AssemblySlider.PercentMonotone | components/AssemblySlider.tsx:96 | a higher level never shows a lower percentage |
| AssemblySlider.PercentAtSliderStep | components/AssemblySlider.tsx:96-104 | at slider step k/100 the read-out is exactly k |
| AssemblySlider.ZeroPercentWhileSeparating | components/AssemblySlider.tsx:86-96 | a level between the slider's steps, 0.004, shows 0% while the status says separating |
| AssemblySlider.SliderStepsAgree | components/AssemblySlider.tsx:86-104 | at every slider step the read-out is 0% exactly when the status is "조립됨", and 100% exactly when it is "완전 분리" |
| AssemblySlider.SliderValue | components/AssemblySlider.tsx:102-104 | the `k`-th slider step is min + k × step and lies in [0, 1] for k ≤ 100 |
| AssemblySlider.Render | components/AssemblySlider.tsx:92-116 | the slider spans [0, 1] in steps of 0.01, holds the level and is disabled exactly while loading; the loading note shows exactly while loading |
| AssemblySlider.HandleChange | components/AssemblySlider.tsx:82-84 | the slider's value becomes the explode level; nothing else in the store changes |
| AssemblySlider.EndStepsShowEndStatus | components/AssemblySlider.tsx:86-104 | the first slider step shows "조립됨" and 0%, the last "완전 분리" and 100% |

## Left out

- Rendering and scene setup: the canvas, the lights, the material and shadow rewriting, `Center` and scaling. They hold no logic.
- Floating point. Positions and levels are exact reals, and `Math.round(level * 100)` is computed on exact reals.
- `normalize` and `length`. They need a square root, so they are given functions (`Vectors.Geometry`). Facts about them are assumed only where a contract states them. `FixesZero` says that the zero vector normalises to itself with length 0. `TestModel.TorsoAndHead` assumes that (0, 1.2, 0) normalises to up and that up has length 1. `TestModel.Direction` bounds the direction's length only when up is at least 0.1 long. `ModelViewer.Direction` bounds it only when the normalised random vector is at least 0.01 long.
- `Math.random`. The viewer's random fallback is a parameter `random: nat -> Vec3`, indexed by the part's position.
- `useGLTF`, `Box3.setFromObject` / `getCenter` and `getWorldPosition`. Their results are inputs: the scene tree, the centre, and a world position per node.
- `URL.createObjectURL` and `revokeObjectURL`. URLs are opaque tokens. The created URL is a parameter, and ghost sets record what was created and what was revoked.
- React scheduling: effect dependencies, re-renders, stale closures and `useFrame`. Each effect body and each frame is one method call.
- Frame rate: the smoothing counts frames, not time. The model does not say how fast a part settles in seconds.
- The panel toggles (`isOpen`), the input click, and `ShaderControlPanel`, which only forwards slider values to the render store.
- The edit mode, the drag and override state, `setMeshPosition`, `resetAllPositions` and `isTransforming`. They are declared in `types/index.ts` but the store does not implement them.
- FileUploader.Instance: the store has no `modelUrl` / `modelName` fields or setters, so the model keeps them in the panel. As written, `handleFile` reads an undefined `modelUrl`. It raises the loading flag (`components/FileUploader.tsx:214`) and then calls the undefined `setModelUrl` (:216), which throws. The model shows the intended transition instead. `handleRemove` fails the same way at its first setter call (:259).
- MeshListPanel: `meshList`, `selectedMeshId`, `meshPositions` and `isEditMode` are inputs, because the store has none of them. As written, the panel reads them from the store as `undefined`. `Object.keys(meshPositions)` (`components/MeshListPanel.tsx:178`) throws before anything renders, and `setSelectedMeshId` (:175, :220) is undefined too. The model shows the intended panel instead. The moved count computed at :178 is never rendered.
- FileUploader.ToLower: only ASCII letters are lower-cased. Full Unicode lower-casing does not change whether a name ends in ".gltf" or ".glb".
- UseRenderStore.RenderStore.SetBloom: a partial is modelled as a map of present fields. An explicit `undefined` value is not modelled. The same holds for `SetAO`, `SetMaterial` and `SetLighting`.
- MeshListPanel.RenderRow: `!!meshPositions[id]` is modelled as "the id has a position". Keys inherited from `Object.prototype` are not modelled.
- TestModel.Instance.InitEffect: takes distinct child objects as given, as in any three.js tree. `ModelViewer.Instance.CollectEffect` takes the same for the cloned scene.
- UseModelStore.ModelStore.SetExplodeLevel: idempotence is not a separate member. It follows from the postcondition, because the new state depends only on the argument. The same holds for the other setters.
