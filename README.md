# Shared 3D stage: placed-object list, selection controls and camera hand-off

A Dafny model of the state handling behind a collaborative 3D stage. Participants place tables and chairs,
drag them, turn them with the mouse wheel and attach memos to them. One participant can take control of
everybody's camera. The model covers three pieces of the TypeScript source:

- **`StageView` (src/views/StageView.tsx)** is class `Stage`. It holds the ordered list of placed-object
  records (`meshDataList`) and the repository's contents by key. Each successful change writes the whole
  list under `"meshes"`. It also holds the selected mesh's name (`currentMesh`) and the visibility of four
  controls: Remove, Memo, Close and the memo editor. Each handler (add table or chair, remove, drag end,
  wheel, memo blur, memo and close buttons, pointer down on a mesh or on the ground) is a method. Its
  contract gives the new list, store and controls in terms of the old ones. Every handler works on the
  *first* record with the selected name, the way `Array.prototype.some` with an early `return true` does.
  That search is `NameSearch.FirstMatch`, a loop proved against the recursive `NameSearch.FirstIndex`.
  Class invariant: the editor shows exactly when Close shows, Remove shows exactly when Memo shows, Remove
  shows only while something is selected, and once loaded the store holds exactly the list (write-through).
- **`LegacyStageView` (src/StageView.tsx)** is class `LegacyStage`, the earlier snapshot. It loads
  `MeshDataModel` records from a bundled JSON file. Each drag frame publishes the mesh under its name on a
  shared map. At drag end it writes the new transform into the first matching JSON record. Add and Remove
  only create or dispose scene meshes.
- **`CameraControl` (src/components/CameraControl.tsx)** is class `CameraController`. It covers the
  take-control toggle, `remoteControlled` driven by non-local `stateChanged` events, saving and restoring the
  local camera pose, echo suppression through the `local` flag, and the 100 ms publish throttle.

Coordinates are reals that the model only copies. Calls into the 3D scene (creating a mesh from its glb
model, disposing it) are appended to a `scene` log. Values written to shared maps and live state are kept
in fields (`shared`, `published`, `broadcast`). Clock readings, uuids and what the scene reports (a
mesh's position after a drag, its yaw after a wheel turn) are method parameters.

In src/views/StageView.tsx the placed-object handlers publish nothing to other participants, and the
list is persisted at the end of a drag, not on each drag frame. In src/StageView.tsx each drag frame is
written to a Live Share map that all participants share (`setEntry`), and nothing is persisted.
src/models/SyncInfo.ts declares `DragInfo{name,x,z}` and `RotateInfo{name,y}`, but no handler uses them.
Only the camera hand-off ignores notifications flagged `local`.

## Model

| member | source | states |
|---|---|---|
| `NameSearch.FirstIndex` | src/views/StageView.tsx:183-191 | the index of the first record with the name: it is in range, it matches, nothing before it matches, and there is none exactly when no record has the name |
| `NameSearch.FirstMatch` | src/views/StageView.tsx:279-285 | the `some` loop that stops at the first name match returns exactly that first index (None when none matches) |
| `MeshList.FirstNamed` | src/views/StageView.tsx:279-285 | the `some` search on `currentMesh`'s name: None when nothing is selected or no record has the selected name; otherwise the first index holding that name |
| `MeshList.RemoveAt` | src/views/StageView.tsx:281 | `splice(i, 1)`: one record shorter, the records before i unchanged, the records after i shifted down by one in order |
| `MeshList.RemoveAtNames` | src/views/StageView.tsx:279-285 | `splice(i, 1)` keeps the records before i and shifts the rest down in order; on a duplicate-free list the names lose exactly the removed name and stay distinct |
| `MeshList.AppendNames` | src/views/StageView.tsx:229 | `push` adds exactly the new name; a fresh name keeps the names distinct |
| `MeshList.ReplaceNames` | src/views/StageView.tsx:183-191 | overwriting fields of one record without changing its name keeps the set of names and their distinctness |
| `StageView.CreateAll` | src/views/StageView.tsx:134-136 | `meshDataList.map(CreateMeshAsync)`: one scene request per record, in list order |
| `StageView.Stage.constructor` | src/views/StageView.tsx:50-63 | empty list, nothing selected, all four controls hidden, the repository as found |
| `StageView.Stage.OnSceneReady` | src/views/StageView.tsx:128-136 | loads `"meshes"` from the store only when the list is empty (an absent key reads as empty), then asks the scene for one mesh per record in order; the store then equals the list |
| `StageView.Stage.AddTable` | src/views/StageView.tsx:216-231 | appends exactly one record at the end: the given name, type "table", position (0,0,0), scale (2,2,2), rotation (0,0,0), memo "This is table-"+name; earlier records unchanged; store's `"meshes"` equals the new list; names grow by the new name and stay distinct when it is fresh |
| `StageView.Stage.AddChair` | src/views/StageView.tsx:247-261 | the same as Add Table with type "chair" and memo "This is chair-"+name |
| `StageView.Stage.Remove` | src/views/StageView.tsx:273-286 | hides all four controls and disposes the selected mesh; splices out only the first record with the selected name, keeping the others in order, and persists; with no match (or no selection) neither list nor store changes; on a duplicate-free list the names lose exactly the selected name and stay distinct |
| `StageView.Stage.DragEnd` | src/views/StageView.tsx:181-192 | overwrites the position of only the first record with the selected name with the dragged mesh's position and persists; every other record and field is unchanged; with no match nothing is persisted |
| `StageView.Stage.Wheel` | src/views/StageView.tsx:452-479 | with a selection, copies position and yaw (`rotation.y` only) into the first matching record and persists; with no selection or no match the list and store are untouched |
| `StageView.Stage.MemoBlur` | src/views/StageView.tsx:326-338 | sets the memo of the first matching record to the editor's text and persists; the pose goes to flat `position_x/y/z`, `rotation_y` properties, so nested `position` and `rotation` do not change |
| `StageView.Stage.MemoButtonClick` | src/views/StageView.tsx:298-301 | shows the editor and its Close button together, keeping the visibility invariant |
| `StageView.Stage.CloseMemoClick` | src/views/StageView.tsx:313-316 | hides the editor and its Close button together, keeping the visibility invariant |
| `StageView.Stage.PointerDownOnMesh` | src/views/StageView.tsx:362-386 | selects the mesh, shows Remove and Memo, hides the editor and Close, and loads the editor with the memo of the first record with that name (unchanged text when none) |
| `StageView.Stage.PointerDownOnGround` | src/views/StageView.tsx:397-405 | clears the selection and hides all four controls |
| `LegacyStageView.CreateAll` | src/StageView.tsx:69-80 | `dataList.map(CreateMeshAsync)`: one scene request per model, in order, carrying its type, name, position and yaw |
| `LegacyStageView.LegacyStage.constructor` | src/StageView.tsx:16-23 | empty `dataList`, the imported JSON records, nothing selected, Remove hidden |
| `LegacyStageView.LegacyStage.OnSceneReady` | src/StageView.tsx:40-80 | only when `dataList` is empty, builds one `MeshDataModel` per JSON record, in order, with type, name, position_x/y/z and rotation_y copied unchanged; then asks the scene for one mesh per model |
| `LegacyStageView.LegacyStage.OnDrag` | src/StageView.tsx:129-131 | every drag frame writes the mesh's pose to the shared map under the selected mesh's name |
| `LegacyStageView.LegacyStage.OnDragEnd` | src/StageView.tsx:132-146 | overwrites position_x/y/z and rotation_y of only the first JSON record with the selected name; other records and `dataList` are untouched |
| `LegacyStageView.LegacyStage.AddTable` | src/StageView.tsx:167-169 | asks the scene for a "table" mesh with the fresh name at (0,0,0), yaw `Math.PI`; `dataList` is not appended to |
| `LegacyStageView.LegacyStage.AddChair` | src/StageView.tsx:184-186 | asks the scene for a "chair" mesh with the fresh name at (0,0,0), yaw `Math.PI`; `dataList` is not appended to |
| `LegacyStageView.LegacyStage.Remove` | src/StageView.tsx:197-200 | disposes the selected mesh and hides Remove; `dataList` and the JSON records do not change |
| `LegacyStageView.LegacyStage.PointerDownOnMesh` | src/StageView.tsx:226-242 | the mesh becomes current and Remove shows |
| `LegacyStageView.LegacyStage.PointerDownOnGround` | src/StageView.tsx:245-251 | nothing is current and Remove hides |
| `CameraControl.SpacedApart` | src/components/CameraControl.tsx:78-84 | from spacing between neighbours, any two publishes k apart are at least k×100 ms apart |
| `CameraControl.CameraController.constructor` | src/components/CameraControl.tsx:14-24 | not remote controlled, not taking control, nothing saved or published, label "Take Camera Control" |
| `CameraControl.CameraController.Mount` | src/components/CameraControl.tsx:26-31 | initialisation runs at most once; the first run starts the throttle clock, later runs change nothing |
| `CameraControl.CameraController.OnValueChanged` | src/components/CameraControl.tsx:36-54 | a camera move moves the local camera only when non-local and while remote controlled |
| `CameraControl.CameraController.OnStateChanged` | src/components/CameraControl.tsx:57-74 | local events change nothing; after a non-local event `remoteControlled` and the button's `disabled` both equal the status; entering saves the camera pose and detaches input, leaving restores exactly the saved pose and attaches input |
| `CameraControl.CameraController.OnViewMatrixChanged` | src/components/CameraControl.tsx:76-84 | the camera takes the pose that fired the notification; that pose is published only when not remote controlled and at least 100 ms after `lastTime`, and `lastTime` then becomes the time after the write; the class invariant keeps any two publishes at least 100 ms apart |
| `CameraControl.CameraController.Click` | src/components/CameraControl.tsx:89-93 | flips `takingControl`, broadcasts the new value, and the label reads "Release Camera Control" exactly when taking control |
| `CameraControl.RemoteControlRoundTrip` | src/components/CameraControl.tsx:57-74 | across a whole remote session (take, any number of remote moves, release) the follower's camera ends exactly where it started, with input attached again, provided no follow animation is still running at release |

## Left out

- Rendering is left out because it is foreign library code: Babylon scene setup, glb loading, mesh transforms, the highlight layer, button styling and placement (`AddUIControl`), and src/services/BabylonHelper.ts and src/services/GUIService.ts. Creating and disposing meshes appears only as entries in the `scene` log.
- Float geometry is left out: pointer picking, moving a mesh along the ground while the pointer moves, the wheel's `sign(deltaY) * 0.1` quaternion turn and Euler conversion, and the camera animation (`framesToCompensate`, the −0.7 offset). The positions and yaws these produce are method parameters. The animation targets the rotation at the received *position* (src/components/CameraControl.tsx:51); the model receives the animation's end pose as one opaque value.
- The effects on the camera's input are left out as rendering. A wheel turn with a selection removes the camera's wheel input (src/views/StageView.tsx:455, src/StageView.tsx:301). A wheel turn with no selection sets `wheelPrecision` (src/views/StageView.tsx:477, src/StageView.tsx:310). A click on the ground adds the wheel input back (src/views/StageView.tsx:400, src/StageView.tsx:248).
- The earlier view's mouse wheel (src/StageView.tsx:298-313) is left out: it turns the scene mesh and changes the camera input as above, and touches no data.
- Scene meshes are tracked only by the requests made (`scene`). Their positions after creation, and the several meshes one glb model yields, are not modelled.
- Timers and clocks are left out. The camera detach on pointer down, deferred by `setTimeout` (src/views/StageView.tsx:390-392, src/StageView.tsx:238-240), and the direct reattach on pointer up (src/views/StageView.tsx:409, src/StageView.tsx:255) are not modelled in either stage view. `Date` readings are parameters.
- `CameraControl.CameraController.OnViewMatrixChanged`: requires that the second clock reading (`later`) is not earlier than the first (`now`). The source reads `Date` twice in one handler; spacing of publishes is stated under that assumption.
- `CameraControl.CameraController.OnViewMatrixChanged`: the handler is treated as one atomic step, although it is `async` and the `await` on the shared-map write (src/components/CameraControl.tsx:81) moves the `lastTime` update into a later microtask. A second view-matrix notification delivered before that microtask runs would still see the old `lastTime` and publish again. The 100 ms spacing is proved only for the atomic reading.
- `CameraControl.RemoteControlRoundTrip`: assumes no follow animation is still running at release. In the source a remote move starts two animations of `framesToCompensate` (about 7 frames, roughly 117 ms at 60 fps) that write the camera's position and rotation every frame. A release arriving within that window has its restored pose overwritten by the running animation. The model applies each remote move instantly (`OnValueChanged` sets the end pose), so the restore is final.
- `CameraControl.CameraController.OnStateChanged`: when control is released before any pose was saved, the source assigns `undefined` to the camera's position and rotation. What the camera then does is up to the rendering library, so the model leaves the pose as it is.
- Host and session plumbing is left out: Teams and Live Share initialisation, container joining, tokens, src/App.tsx, src/ConfigView.tsx and src/StageViewWrapper.tsx. `takeControl.initialize(false)` is one of these.
- `RepositoryService` is not part of this model. Only its get/set-by-key contract is modelled: a whole-list snapshot per key. An absent key reads as the empty list.
- `LegacyStageView.LegacyStage.OnDrag`: the source writes the whole `currentMesh` object as the shared map's value (src/StageView.tsx:130). The model writes only the mesh's pose (position and rotation), because the rest of a Babylon mesh object is rendering state.
- `SyncActionType` and `CameraControlInfo` are not part of this model. The key and payload of a camera publish are reduced to the pose and the clock reading.
- A dereference of a null `currentMesh` (`currentMesh!`) throws inside the handler. The model then keeps the effects made before the throw (Remove has already hidden its controls) and changes no data. This is the same as "no match".
- React re-rendering, which builds `meshDataList`/`dataList` afresh on each render, is framework behaviour and is not modelled. Each class models one mounted view.
- Uuid generation is not modelled; the new name is a parameter. The add handlers promise distinct names only when that name is fresh.
- Clicks reaching a hidden or disabled control are not filtered out; each click handler is modelled as written.
