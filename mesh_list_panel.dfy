/**
 * The part list panel: one row per listed mesh with a "moved" badge and a
 * "selected" badge, a click that toggles the selection, a deselect button,
 * the number of moved parts and an edit-mode help line. The selection, the
 * moved positions and the edit-mode flag are inputs.
 */
module MeshListPanel {
  import opened Wrappers

  datatype MeshInfo = MeshInfo(id: string, name: string, color: string)
  datatype MeshPosition = MeshPosition(x: real, y: real, z: real)

  /** Clicking the selected row clears the selection; clicking any other row selects it. */
  function HandleMeshClick(selected: Option<string>, id: string): (r: Option<string>)
    ensures r == None <==> selected == Some(id)
    ensures r != None ==> r == Some(id)
  {
    if selected == Some(id) then None else Some(id)
  }

  /**
   * After the deselect button no row carries the selected badge and the
   * button itself is disabled.
   */
  lemma DeselectClearsView(meshList: seq<MeshInfo>, positions: map<string, MeshPosition>)
    ensures DeselectDisabled(Deselect())
    ensures forall k :: 0 <= k < |meshList| ==> !RenderRow(meshList[k], Deselect(), positions).selectedBadge
  {
  }

  /** From no selection, two clicks on the same row come back to no selection. */
  lemma ClickTwiceDeselects(id: string)
    ensures HandleMeshClick(HandleMeshClick(None, id), id) == None
  {
  }

  /** The deselect button's action. */
  function Deselect(): (r: Option<string>)
    ensures r.None?
  {
    None
  }

  /**
   * `!selectedMeshId`: disabled with no selection and also with the empty
   * id, which is falsy; enabled only for a non-empty selected id.
   */
  predicate DeselectDisabled(selected: Option<string>): (disabled: bool)
    ensures selected.None? ==> disabled
    ensures !disabled <==> selected.Some? && |selected.value| > 0
  {
    selected == None || selected == Some("")
  }

  /** `Object.keys(meshPositions).length`: zero exactly when no part has been moved. */
  function MovedCount(positions: map<string, MeshPosition>): (n: nat)
    ensures n == 0 <==> positions == map[]
    ensures forall id :: id in positions ==> n >= 1
  {
    |positions.Keys|
  }

  datatype Row = Row(mesh: MeshInfo, isMoved: bool, isSelected: bool, movedBadge: bool, selectedBadge: bool)

  datatype PanelBody =
    | Loading
    | Listing(rows: seq<Row>, deselectDisabled: bool, helpText: bool)

  datatype PanelView = PanelView(partCount: nat, body: PanelBody)

  /**
   * One row: moved when its id has a position; the moved badge only when it
   * is not selected; the selected badge exactly when its id is the selection.
   */
  function RenderRow(m: MeshInfo, selected: Option<string>, positions: map<string, MeshPosition>): (r: Row)
    ensures r.mesh == m
    ensures r.isMoved <==> m.id in positions
    ensures r.selectedBadge <==> selected == Some(m.id)
    ensures r.movedBadge <==> m.id in positions && selected != Some(m.id)
    ensures !(r.movedBadge && r.selectedBadge)
  {
    var isMoved := m.id in positions;
    var isSelected := selected == Some(m.id);
    Row(m, isMoved, isSelected, isMoved && !isSelected, isSelected)
  }

  /** The panel: a loading line for an empty list, otherwise one row per mesh in list order. */
  function Render(meshList: seq<MeshInfo>, selected: Option<string>, positions: map<string, MeshPosition>, isEditMode: bool): (v: PanelView)
    ensures v.partCount == |meshList|
    ensures v.body.Loading? <==> meshList == []
    ensures v.body.Listing? ==>
      |v.body.rows| == |meshList| &&
      (forall k :: 0 <= k < |meshList| ==> v.body.rows[k] == RenderRow(meshList[k], selected, positions)) &&
      (v.body.deselectDisabled <==> DeselectDisabled(selected)) &&
      (v.body.helpText <==> isEditMode)
  {
    var body :=
      if |meshList| == 0 then Loading
      else Listing(seq(|meshList|, k requires 0 <= k < |meshList| => RenderRow(meshList[k], selected, positions)),
                   DeselectDisabled(selected), isEditMode);
    PanelView(|meshList|, body)
  }

  predicate DistinctIds(meshList: seq<MeshInfo>) {
    forall i, j :: 0 <= i < j < |meshList| ==> meshList[i].id != meshList[j].id
  }

  /** With distinct ids, at most one row carries the selected badge. */
  lemma SelectedBadgeUnique(meshList: seq<MeshInfo>, selected: Option<string>, positions: map<string, MeshPosition>, i: nat, j: nat)
    requires DistinctIds(meshList) && i < j < |meshList|
    ensures !(RenderRow(meshList[i], selected, positions).selectedBadge && RenderRow(meshList[j], selected, positions).selectedBadge)
  {
  }

  /**
   * After a click on row `k` (distinct ids), row `k` carries the selected
   * badge exactly when it did not before, and no other row carries it.
   */
  lemma ClickRow(meshList: seq<MeshInfo>, selected: Option<string>, positions: map<string, MeshPosition>, k: nat)
    requires DistinctIds(meshList) && k < |meshList|
    ensures var after := HandleMeshClick(selected, meshList[k].id);
      (RenderRow(meshList[k], after, positions).selectedBadge <==> !RenderRow(meshList[k], selected, positions).selectedBadge) &&
      forall j :: 0 <= j < |meshList| && j != k ==> !RenderRow(meshList[j], after, positions).selectedBadge
  {
    var after := HandleMeshClick(selected, meshList[k].id);
    forall j | 0 <= j < |meshList| && j != k
      ensures !RenderRow(meshList[j], after, positions).selectedBadge
    {
      assert meshList[j].id != meshList[k].id;
    }
  }

  /** Number of rows whose id has a position. */
  function MovedRows(meshList: seq<MeshInfo>, positions: map<string, MeshPosition>): nat {
    if meshList == [] then 0
    else (if meshList[0].id in positions then 1 else 0) + MovedRows(meshList[1..], positions)
  }

  function MovedIds(meshList: seq<MeshInfo>, positions: map<string, MeshPosition>): set<string> {
    set k | 0 <= k < |meshList| && meshList[k].id in positions :: meshList[k].id
  }

  lemma MovedIdsCons(meshList: seq<MeshInfo>, positions: map<string, MeshPosition>)
    requires meshList != []
    ensures MovedIds(meshList, positions) ==
      (if meshList[0].id in positions then {meshList[0].id} else {}) + MovedIds(meshList[1..], positions)
  {
    var h, rest := meshList[0], meshList[1..];
    var ids, restIds := MovedIds(meshList, positions), MovedIds(rest, positions);
    forall x | x in ids ensures x in (if h.id in positions then {h.id} else {}) + restIds {
      var k :| 0 <= k < |meshList| && meshList[k].id in positions && meshList[k].id == x;
      if k > 0 { assert rest[k - 1] == meshList[k]; }
    }
    forall x | x in restIds ensures x in ids {
      var k :| 0 <= k < |rest| && rest[k].id in positions && rest[k].id == x;
      assert meshList[k + 1] == rest[k];
    }
  }

  lemma HeadNotMovedLater(meshList: seq<MeshInfo>, positions: map<string, MeshPosition>)
    requires meshList != [] && DistinctIds(meshList)
    ensures meshList[0].id !in MovedIds(meshList[1..], positions)
  {
    var rest := meshList[1..];
    forall k | 0 <= k < |rest| ensures rest[k].id != meshList[0].id {
      assert rest[k] == meshList[k + 1];
    }
  }

  lemma {:induction false} MovedRowsAreMovedIds(meshList: seq<MeshInfo>, positions: map<string, MeshPosition>)
    requires DistinctIds(meshList)
    ensures MovedRows(meshList, positions) == |MovedIds(meshList, positions)|
    decreases |meshList|
  {
    if meshList != [] {
      var rest := meshList[1..];
      assert DistinctIds(rest) by {
        forall i, j | 0 <= i < j < |rest| ensures rest[i].id != rest[j].id {
          assert rest[i] == meshList[i + 1] && rest[j] == meshList[j + 1];
        }
      }
      MovedRowsAreMovedIds(rest, positions);
      MovedIdsCons(meshList, positions);
      HeadNotMovedLater(meshList, positions);
    }
  }

  lemma {:induction false} SubsetCard(a: set<string>, b: set<string>)
    requires a <= b
    ensures |a| <= |b|
    decreases b
  {
    if a != {} {
      var x :| x in a;
      SubsetCard(a - {x}, b - {x});
    }
  }

  /**
   * With distinct ids, the number of moved rows never exceeds the moved
   * count, which also counts positions of parts not in the list. The
   * component computes that count but never renders it.
   */
  lemma MovedRowsAtMostMovedCount(meshList: seq<MeshInfo>, positions: map<string, MeshPosition>)
    requires DistinctIds(meshList)
    ensures MovedRows(meshList, positions) <= MovedCount(positions)
  {
    MovedRowsAreMovedIds(meshList, positions);
    SubsetCard(MovedIds(meshList, positions), positions.Keys);
  }
}
