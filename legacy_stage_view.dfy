/**
 * The earlier stage view of src/StageView.tsx. The records come from a
 * bundled JSON file and are copied into `MeshDataModel` objects; dragging
 * publishes the mesh under its name on a shared map and, at the end, writes
 * the new transform back into the JSON record. Add and Remove only create or
 * dispose meshes in the scene: they never touch the data.
 */
module LegacyStageView {
  import opened Wrappers
  import opened Geometry
  import NameSearch
  import Sequences

  /** `Math.PI`, the yaw new objects are created with. */
  const Pi: real := 3.141592653589793

  /** One record of the bundled meshes.json. */
  datatype JsonMesh = JsonMesh(kind: string, name: string, positionX: real, positionY: real, positionZ: real, rotationY: real)

  /** The `MeshDataModel` class of src/MeshDataModel.ts: a plain record of the same six fields. */
  datatype MeshDataModel = MeshDataModel(kind: string, name: string, positionX: real, positionY: real, positionZ: real, rotationY: real)

  /** The mesh's transform as published on the shared map while it is dragged. */
  datatype Pose = Pose(position: Vec3, rotation: Vec3)

  /** A request to the 3D scene: `CreateMeshAsync(scene, type, name, x, y, z, yaw)` or `currentMesh.dispose()`. */
  datatype SceneCall = Create(kind: string, name: string, position: Vec3, rotationY: real) | Dispose(name: string)

  /** The model holds every field of the JSON record unchanged. */
  ghost predicate Copies(m: MeshDataModel, j: JsonMesh)
  {
    && m.kind == j.kind && m.name == j.name
    && m.positionX == j.positionX && m.positionY == j.positionY && m.positionZ == j.positionZ
    && m.rotationY == j.rotationY
  }

  /** The names of the JSON records, in order. */
  function JsonNames(records: seq<JsonMesh>): seq<string>
  {
    Sequences.Map(records, (j: JsonMesh) => j.name)
  }

  /** One scene request per model, in order (`dataList.map(CreateMeshAsync)`). */
  function CreateAll(models: seq<MeshDataModel>): (r: seq<SceneCall>)
    ensures |r| == |models|
    ensures forall k :: 0 <= k < |models| ==>
      r[k] == Create(models[k].kind, models[k].name,
                     Vec3(models[k].positionX, models[k].positionY, models[k].positionZ), models[k].rotationY)
  {
    Sequences.Map(models, (m: MeshDataModel) => Create(m.kind, m.name, Vec3(m.positionX, m.positionY, m.positionZ), m.rotationY))
  }

  class LegacyStage {
    /** `dataList` */
    var dataList: seq<MeshDataModel>
    /** The imported meshes.json, whose records the drag-end handler overwrites in place. */
    var meshesData: seq<JsonMesh>
    /** The shared map's entries (`setEntry`), by mesh name. */
    var shared: map<string, Pose>
    /** The name of `currentMesh`, None when it is null. */
    var selected: Option<string>
    var removeVisible: bool
    /** Requests made to the 3D scene, oldest first. */
    var scene: seq<SceneCall>

    /** The Remove button shows only while something is selected. */
    ghost predicate Valid()
      reads this
    {
      removeVisible ==> selected.Some?
    }

    constructor (json: seq<JsonMesh>, entries: map<string, Pose>)
      ensures Valid()
      ensures dataList == [] && meshesData == json && shared == entries
      ensures selected == None && !removeVisible && scene == []
    {
      dataList := [];
      meshesData := json;
      shared := entries;
      selected := None;
      removeVisible := false;
      scene := [];
    }

    /**
     * `onSceneReady`: when `dataList` is empty, build one model per JSON
     * record, in order, with every field copied; then create each in the scene.
     */
    method OnSceneReady()
      requires Valid()
      modifies this`dataList, this`scene
      ensures Valid()
      ensures old(dataList) == [] ==>
        |dataList| == |meshesData| && forall k :: 0 <= k < |dataList| ==> Copies(dataList[k], meshesData[k])
      ensures old(dataList) != [] ==> dataList == old(dataList)
      ensures scene == old(scene) + CreateAll(dataList)
    {
      if |dataList| == 0 {
        // `dataList.push(new MeshDataModel(...))` for each record, accumulated locally.
        var loaded: seq<MeshDataModel> := [];
        var i := 0;
        while i < |meshesData|
          invariant 0 <= i <= |meshesData|
          invariant |loaded| == i
          invariant forall k :: 0 <= k < i ==> Copies(loaded[k], meshesData[k])
        {
          var mesh := meshesData[i];
          loaded := loaded + [MeshDataModel(mesh.kind, mesh.name, mesh.positionX, mesh.positionY, mesh.positionZ, mesh.rotationY)];
          i := i + 1;
        }
        dataList := loaded;
      }
      scene := scene + CreateAll(dataList);
    }

    /** A drag frame: publish the dragged mesh's pose under the selected mesh's name. */
    method OnDrag(pose: Pose)
      requires Valid()
      modifies this`shared
      ensures Valid()
      ensures selected.Some? ==> shared == old(shared)[selected.value := pose]
      ensures selected.None? ==> shared == old(shared)
    {
      if selected.Some? {
        shared := shared[selected.value := pose];
      }
    }

    /**
     * End of a drag: overwrite position and yaw of the first JSON record with
     * the selected name and stop there. `dataList` is not updated.
     */
    method OnDragEnd(position: Vec3, rotationY: real)
      requires Valid()
      modifies this`meshesData
      ensures Valid()
      ensures var hit := if selected.Some? then NameSearch.FirstIndex(JsonNames(old(meshesData)), selected.value) else None;
        && (hit.None? ==> meshesData == old(meshesData))
        && (hit.Some? ==> meshesData == old(meshesData)[hit.value := old(meshesData)[hit.value].(
                              positionX := position.x, positionY := position.y, positionZ := position.z,
                              rotationY := rotationY)])
    {
      if selected.Some? {
        var hit := NameSearch.FirstMatch(JsonNames(meshesData), selected.value);
        if hit.Some? {
          var i := hit.value;
          meshesData := meshesData[i := meshesData[i].(
            positionX := position.x, positionY := position.y, positionZ := position.z, rotationY := rotationY)];
        }
      }
    }

    /** The Add Table button: a "table" mesh named `name` (a fresh uuid) appears at the origin; no record is added. */
    method AddTable(name: string)
      requires Valid()
      modifies this`scene
      ensures Valid()
      ensures scene == old(scene) + [Create("table", name, Origin, Pi)]
    {
      scene := scene + [Create("table", name, Origin, Pi)];
    }

    /** The Add Chair button: a "chair" mesh named `name` (a fresh uuid) appears at the origin; no record is added. */
    method AddChair(name: string)
      requires Valid()
      modifies this`scene
      ensures Valid()
      ensures scene == old(scene) + [Create("chair", name, Origin, Pi)]
    {
      scene := scene + [Create("chair", name, Origin, Pi)];
    }

    /** The Remove button: dispose the selected mesh and hide the button; no data changes. */
    method Remove()
      requires Valid()
      modifies this`scene, this`removeVisible
      ensures Valid()
      ensures !removeVisible
      ensures scene == old(scene) + (if selected.Some? then [Dispose(selected.value)] else [])
    {
      if selected.Some? {
        scene := scene + [Dispose(selected.value)];
      }
      removeVisible := false;
    }

    /** A pointer press on a mesh: it becomes current and the Remove button shows. */
    method PointerDownOnMesh(name: string)
      requires Valid()
      modifies this`selected, this`removeVisible
      ensures Valid()
      ensures selected == Some(name) && removeVisible
    {
      selected := Some(name);
      removeVisible := true;
    }

    /** A pointer press on the ground: nothing is current and the Remove button hides. */
    method PointerDownOnGround()
      requires Valid()
      modifies this`selected, this`removeVisible
      ensures Valid()
      ensures selected == None && !removeVisible
    {
      selected := None;
      removeVisible := false;
    }
  }
}
