/**
 * The stage view of src/views/StageView.tsx: the list of placed objects
 * (`meshDataList`), written through to the repository under "meshes" after
 * every successful change, and the selection (`currentMesh`) with the four
 * controls that follow it (Remove, Memo, Close, the memo editor).
 *
 * Scene calls (loading a model into the scene, disposing a mesh) are
 * recorded in `scene`, in order, rather than performed.
 */
module StageView {
  import opened Wrappers
  import opened Geometry
  import opened MeshList
  import NameSearch
  import Sequences

  /** The repository key the whole list is stored under. */
  const MeshesKey := "meshes"

  /** Scale every new object is created with. */
  const NewScale := Vec3(2.0, 2.0, 2.0)

  /** A request to the 3D scene: `CreateMeshAsync(scene, mesh)` or `currentMesh.dispose()`. */
  datatype SceneCall = Create(mesh: MeshData) | Dispose(name: string)

  /** One scene request per record, in list order (`meshDataList.map(CreateMeshAsync)`). */
  function CreateAll(list: seq<MeshData>): (r: seq<SceneCall>)
    ensures |r| == |list|
    ensures forall k :: 0 <= k < |list| ==> r[k] == Create(list[k])
  {
    Sequences.Map(list, (m: MeshData) => Create(m))
  }

  class Stage {
    /** `meshDataList` */
    var list: seq<MeshData>
    /** The repository's contents, by key (`getData` / `setData`). */
    var store: map<string, seq<MeshData>>
    /** `onSceneReady` has run: the list is loaded and the handlers are registered. */
    var ready: bool
    /** The name of `currentMesh`, None when it is null. */
    var selected: Option<string>
    var removeVisible: bool
    var memoVisible: bool
    var closeMemoVisible: bool
    var memoInputVisible: bool
    /** The text of the memo editor (`memoInput.text`). */
    var editorText: string
    /** Requests made to the 3D scene, oldest first. */
    var scene: seq<SceneCall>

    /** `getData("meshes")`; an absent key reads as the empty list. */
    function Stored(): seq<MeshData>
      reads this
    {
      if MeshesKey in store then store[MeshesKey] else []
    }

    /**
     * The editor and its Close button show together, Remove and Memo show
     * together, and they show only while something is selected; once loaded,
     * the store holds exactly the list.
     */
    ghost predicate Valid()
      reads this
    {
      && (memoInputVisible <==> closeMemoVisible)
      && (removeVisible <==> memoVisible)
      && (removeVisible ==> selected.Some?)
      && (ready ==> list == Stored())
      && (!ready ==> list == [])
    }

    /** Selection, controls and editor text are as before. */
    twostate predicate ControlsUnchanged()
      reads this
    {
      && selected == old(selected)
      && removeVisible == old(removeVisible)
      && memoVisible == old(memoVisible)
      && closeMemoVisible == old(closeMemoVisible)
      && memoInputVisible == old(memoInputVisible)
      && editorText == old(editorText)
    }

    /** A fresh view over a repository holding `persisted`: empty list, nothing selected, every control hidden. */
    constructor (persisted: map<string, seq<MeshData>>)
      ensures Valid() && !ready
      ensures list == [] && store == persisted && scene == []
      ensures selected == None && editorText == ""
      ensures !removeVisible && !memoVisible && !closeMemoVisible && !memoInputVisible
    {
      list := [];
      store := persisted;
      ready := false;
      selected := None;
      removeVisible, memoVisible, closeMemoVisible, memoInputVisible := false, false, false, false;
      editorText := "";
      scene := [];
    }

    /** `onSceneReady`: load "meshes" from the repository when the list is empty, then create every object in the scene. */
    method OnSceneReady()
      requires Valid()
      modifies this
      ensures Valid() && ready
      ensures old(list) == [] ==> list == old(Stored())
      ensures old(list) != [] ==> list == old(list)
      ensures store == old(store)
      ensures scene == old(scene) + CreateAll(list)
      ensures ControlsUnchanged()
    {
      if |list| == 0 {
        list := Stored();
      }
      ready := true;
      scene := scene + CreateAll(list);
    }

    /** The Add Table button: create a "table" record named `name` (a fresh uuid) and append it. */
    method AddTable(name: string)
      requires Valid() && ready
      modifies this
      ensures Valid() && ready
      ensures list == old(list) + [MeshData(name, "table", Origin, NewScale, Origin, "This is table-" + name, None)]
      ensures store == old(store)[MeshesKey := list]
      ensures scene == old(scene) + [Create(list[|list| - 1])]
      ensures Names(list) == Names(old(list)) + {name}
      ensures Unique(old(list)) && name !in Names(old(list)) ==> Unique(list)
      ensures ControlsUnchanged()
    {
      var newMesh := MeshData(name, "table", Origin, NewScale, Origin, "This is table-" + name, None);
      scene := scene + [Create(newMesh)];
      AppendNames(list, newMesh);
      list := list + [newMesh];
      store := store[MeshesKey := list];
    }

    /** The Add Chair button: create a "chair" record named `name` (a fresh uuid) and append it. */
    method AddChair(name: string)
      requires Valid() && ready
      modifies this
      ensures Valid() && ready
      ensures list == old(list) + [MeshData(name, "chair", Origin, NewScale, Origin, "This is chair-" + name, None)]
      ensures store == old(store)[MeshesKey := list]
      ensures scene == old(scene) + [Create(list[|list| - 1])]
      ensures Names(list) == Names(old(list)) + {name}
      ensures Unique(old(list)) && name !in Names(old(list)) ==> Unique(list)
      ensures ControlsUnchanged()
    {
      var newMesh := MeshData(name, "chair", Origin, NewScale, Origin, "This is chair-" + name, None);
      scene := scene + [Create(newMesh)];
      AppendNames(list, newMesh);
      list := list + [newMesh];
      store := store[MeshesKey := list];
    }

    /**
     * The Remove button: dispose the selected mesh, hide all four controls and
     * splice out the first record with the selected name. With no such record
     * (or no selection) the list and the store stay as they are.
     */
    method Remove()
      requires Valid() && ready
      modifies this
      ensures Valid() && ready
      ensures !removeVisible && !memoVisible && !closeMemoVisible && !memoInputVisible
      ensures selected == old(selected) && editorText == old(editorText)
      ensures scene == old(scene) + (if selected.Some? then [Dispose(selected.value)] else [])
      ensures var hit := FirstNamed(old(list), old(selected));
        && (hit.None? ==> list == old(list) && store == old(store))
        && (hit.Some? ==> list == RemoveAt(old(list), hit.value) && store == old(store)[MeshesKey := list])
      ensures Unique(old(list)) && selected.Some? ==> Unique(list) && Names(list) == Names(old(list)) - {selected.value}
    {
      if selected.Some? {
        scene := scene + [Dispose(selected.value)];
      }
      removeVisible, memoVisible, closeMemoVisible, memoInputVisible := false, false, false, false;
      if selected.Some? {
        var hit := NameSearch.FirstMatch(NameSeq(list), selected.value);
        if hit.Some? {
          RemoveAtNames(list, hit.value);
          list := RemoveAt(list, hit.value);
          store := store[MeshesKey := list];
        }
      }
    }

    /** End of a drag: copy the dragged mesh's position into the first record with the selected name. */
    method DragEnd(position: Vec3)
      requires Valid() && ready
      modifies this
      ensures Valid() && ready
      ensures var hit := FirstNamed(old(list), old(selected));
        && (hit.None? ==> list == old(list) && store == old(store))
        && (hit.Some? ==> list == old(list)[hit.value := old(list)[hit.value].(position := position)]
                          && store == old(store)[MeshesKey := list])
      ensures Names(list) == Names(old(list)) && (Unique(old(list)) ==> Unique(list))
      ensures scene == old(scene) && ControlsUnchanged()
    {
      if selected.Some? {
        var hit := NameSearch.FirstMatch(NameSeq(list), selected.value);
        if hit.Some? {
          var i := hit.value;
          var updated := list[i].(position := position);
          ReplaceNames(list, i, updated);
          list := list[i := updated];
          store := store[MeshesKey := list];
        }
      }
    }

    /**
     * The mouse wheel with a mesh selected: after the scene has turned it,
     * copy its position and yaw into the first record with its name. With
     * nothing selected only the camera reacts.
     */
    method Wheel(position: Vec3, rotationY: real)
      requires Valid() && ready
      modifies this
      ensures Valid() && ready
      ensures var hit := FirstNamed(old(list), old(selected));
        && (hit.None? ==> list == old(list) && store == old(store))
        && (hit.Some? ==> list == old(list)[hit.value := old(list)[hit.value].(
                              position := position,
                              rotation := old(list)[hit.value].rotation.(y := rotationY))]
                          && store == old(store)[MeshesKey := list])
      ensures Names(list) == Names(old(list)) && (Unique(old(list)) ==> Unique(list))
      ensures scene == old(scene) && ControlsUnchanged()
    {
      if selected.Some? {
        var hit := NameSearch.FirstMatch(NameSeq(list), selected.value);
        if hit.Some? {
          var i := hit.value;
          var updated := list[i].(position := position, rotation := list[i].rotation.(y := rotationY));
          ReplaceNames(list, i, updated);
          list := list[i := updated];
          store := store[MeshesKey := list];
        }
      }
    }

    /**
     * The memo editor loses focus holding `text`: the first record with the
     * selected name takes `text` as its memo, and the mesh's position and yaw
     * land in the flat `position_x` ... `rotation_y` properties, leaving the
     * nested `position` and `rotation` as they were.
     */
    method MemoBlur(text: string, position: Vec3, rotationY: real)
      requires Valid() && ready
      modifies this
      ensures Valid() && ready
      ensures editorText == text
      ensures var hit := FirstNamed(old(list), old(selected));
        && (hit.None? ==> list == old(list) && store == old(store))
        && (hit.Some? ==> list == old(list)[hit.value := old(list)[hit.value].(
                              memo := text,
                              flat := Some(FlatPose(position.x, position.y, position.z, rotationY)))]
                          && store == old(store)[MeshesKey := list])
      ensures Names(list) == Names(old(list)) && (Unique(old(list)) ==> Unique(list))
      ensures selected == old(selected) && scene == old(scene)
      ensures removeVisible == old(removeVisible) && memoVisible == old(memoVisible)
      ensures closeMemoVisible == old(closeMemoVisible) && memoInputVisible == old(memoInputVisible)
    {
      editorText := text;
      if selected.Some? {
        var hit := NameSearch.FirstMatch(NameSeq(list), selected.value);
        if hit.Some? {
          var i := hit.value;
          var updated := list[i].(memo := text, flat := Some(FlatPose(position.x, position.y, position.z, rotationY)));
          ReplaceNames(list, i, updated);
          list := list[i := updated];
          store := store[MeshesKey := list];
        }
      }
    }

    /** The Memo button: open the editor and its Close button. */
    method MemoButtonClick()
      requires Valid() && ready
      modifies this`memoInputVisible, this`closeMemoVisible
      ensures Valid()
      ensures memoInputVisible && closeMemoVisible
    {
      memoInputVisible, closeMemoVisible := true, true;
    }

    /** The Close button: hide the editor and the Close button itself. */
    method CloseMemoClick()
      requires Valid() && ready
      modifies this`memoInputVisible, this`closeMemoVisible
      ensures Valid()
      ensures !memoInputVisible && !closeMemoVisible
    {
      memoInputVisible, closeMemoVisible := false, false;
    }

    /**
     * A pointer press on a mesh: select it, show Remove and Memo, hide the
     * editor and Close, and load the editor with the memo of the first record
     * with that name (the text stays as it was when there is none).
     */
    method PointerDownOnMesh(name: string)
      requires Valid() && ready
      modifies this`selected, this`removeVisible, this`memoVisible, this`closeMemoVisible,
        this`memoInputVisible, this`editorText
      ensures Valid()
      ensures selected == Some(name)
      ensures removeVisible && memoVisible && !closeMemoVisible && !memoInputVisible
      ensures var hit := FirstNamed(list, Some(name));
        editorText == if hit.Some? then list[hit.value].memo else old(editorText)
    {
      selected := Some(name);
      removeVisible, memoVisible := true, true;
      closeMemoVisible, memoInputVisible := false, false;
      var hit := NameSearch.FirstMatch(NameSeq(list), name);
      assert hit == FirstNamed(list, Some(name));
      if hit.Some? {
        editorText := list[hit.value].memo;
      }
    }

    /** A pointer press on the ground (or on nothing): clear the selection and hide all four controls. */
    method PointerDownOnGround()
      requires Valid() && ready
      modifies this`selected, this`removeVisible, this`memoVisible, this`closeMemoVisible, this`memoInputVisible
      ensures Valid()
      ensures selected == None
      ensures !removeVisible && !memoVisible && !closeMemoVisible && !memoInputVisible
    {
      selected := None;
      removeVisible, memoVisible, closeMemoVisible, memoInputVisible := false, false, false, false;
    }
  }
}
