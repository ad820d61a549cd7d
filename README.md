# Undo/redo history of a 3D room editor, in Dafny

This project models the editing core of a browser-based 3D room editor built on three.js.
The user places lights, furniture and collision boxes into a scene. The menu manager keeps
one registry per kind of object. Two history objects record snapshots of those registries,
so that Ctrl+Z and Ctrl+Y can step back and forth:

- the scene history (`modelInteraction.js`) snapshots all three registries;
- the collision history (`js/interaction/collisionInteraction.js`) snapshots the collision
  boxes only.

Each history keeps three stacks. `past` is bounded by `maxHistoryPoints - 1`, `present` is
the snapshot currently shown, and `future` holds what can be redone. `applyState` empties a
registry and the scene of its objects, then rebuilds both from a snapshot. It copies each
stored transform back onto the object it was taken from. Around the histories sit:

- the Delete/Backspace branch of each `keydown` handler, which finds the selected object by
  identity, splices its entry out and then always pushes. Only collision boxes are created
  with `userData.isSelectable` (js/loaders/collisionBox.js:21), so Delete on a selected
  furniture group removes nothing in the scene-history handler and pushes all the same;
- the menu manager's add operations, which append one entry and push the matching history;
- preview mode, which hides every visible helper, records what it hid, and restores it on exit.

Modules, in dependency order:

- `SceneGraph` (`scene_graph.dfy`): scene objects as a class. Each has a transform, a
  `visible` flag, fixed children and the three flags the editor tests. The scene is a set of
  objects.
- `Registry` (`registry.dfy`): the registry entry types, the `findIndex` searches and `splice`.
- `Snapshots` (`snapshots.dfy`): snapshot items, `saveState` as functions, and the registries
  `applyState` rebuilds. It also proves the capture/rebuild round trips.
- `HistoryStacks` (`history_stacks.dfy`): the stack discipline as pure functions on a
  `Stacks` value, with its laws. These are the undo/redo inverse, linear history, the bound,
  and eviction of the oldest snapshots.
- `Keys` (`keys.dfy`): the key bindings.
- `Preview` (`preview.dfy`): the hide-and-record passes of `enterPreviewMode` and the restore
  loop of `exitPreviewMode`.
- `Editor` (`editor.dfy`): the classes `MenuManager`, `SceneHistory` and `CollisionHistory`,
  which refer to each other.
- `Interaction` (`interaction.dfy`): the two `keydown` handlers. Each is a class over the
  objects its closure captures.

Each history class has an abstract value, `State()`, of type `HistoryStacks.Stacks<Snapshot>`.
`Push`, `Undo` and `Redo` are proved to change it exactly as `HistoryStacks.Push`, `Undo` and
`Redo` say, so the stack laws hold of the objects. What `applyState` does to the registries,
the scene and the transforms is the two-state predicate `Applied`.

Where a design-level reading and the code differ, the model follows the code:

- A snapshot naming a disposed object is not rejected; `applyState` simply re-adds it.
- Adding a collision box from the menu pushes only the collision history. Nothing in
  `main.js` sets that history up, so in the running editor that push does not happen at
  all, and an add-light, add-box, undo sequence removes the box too.
- The two keyboard handlers test the three shortcuts with three separate `if`s. The key
  tests exclude each other (`Keys.Classify`), so at most one branch runs.

## Model

| member | source | states |
|---|---|---|
| SceneGraph.FirstSphere | js/menus/menuManager.js:389-391 | the child found is a helper sphere and no earlier child is; none is found exactly when no child is a helper sphere |
| Registry.FindLight | modelInteraction.js:168 | -1 exactly when no entry holds the object; otherwise the first index whose light is the object |
| Registry.FindFurniture | modelInteraction.js:184 | -1 exactly when no entry holds the group; otherwise the first index whose helper is it |
| Registry.FindBox | modelInteraction.js:176-178 | -1 exactly when no entry holds the box; otherwise the first index whose box is it |
| Registry.RemoveAt | modelInteraction.js:172 | -1 changes nothing; any other index removes exactly that entry and keeps the order of the rest |
| Registry.WithoutTargets | modelInteraction.js:126 | the rebuilt light entries keep each light and helper in order and drop the spot target |
| Registry.LightObjects | modelInteraction.js:102-105 | every light and every helper of the registry is among the objects `applyState` removes |
| Registry.LightObjectsOnly | modelInteraction.js:102-105 | nothing but a registered light or helper is among them |
| Registry.FurnitureObjects | modelInteraction.js:106-108 | the objects removed are exactly the registered helper groups |
| Registry.BoxObjects | modelInteraction.js:109-111 | the objects removed are exactly the registered boxes |
| Snapshots.LightsState | modelInteraction.js:21-28 | one light item per entry, in registry order, holding the light's current transform, the light and the helper |
| Snapshots.FurnitureState | modelInteraction.js:31-37 | one furniture item per entry, in order, holding the group's current transform |
| Snapshots.CollisionState | js/interaction/collisionInteraction.js:17-28 | one collision item per box, in order, with its current transform and its width, height and depth unchanged (both histories capture boxes this way) |
| Snapshots.LastBeforeMeans | modelInteraction.js:119-145 | an entry is last for its object exactly when no later entry restores the same transform |
| Snapshots.LightsAppend | modelInteraction.js:119-145 | rebuilding from two concatenated snapshots rebuilds from the first, then from the second |
| Snapshots.LightsRoundTrip | modelInteraction.js:120-126 | the captured light items rebuild exactly the lights they came from, in order, without targets, and no other kind of entry |
| Snapshots.FurnitureRoundTrip | modelInteraction.js:127-132 | the captured furniture items rebuild exactly the furniture registry and nothing else |
| Snapshots.CollisionRoundTrip | modelInteraction.js:133-143 | the captured collision items rebuild exactly the box registry, dimensions included, and nothing else |
| Snapshots.SaveState | modelInteraction.js:19-51 | the scene history's `saveState`: the light items, then the furniture items, then the collision items, one per registry entry; what each entry holds is proved by SaveStateTarget, SaveStatePoses, SaveStateRoundTrip and SaveStateAllLast |
| Snapshots.LightsIn | modelInteraction.js:119-126 | the light registry `applyState` rebuilds: one `{ light, helper }` per light entry, in snapshot order, so no more entries than the snapshot; its meaning is proved by LightsAppend and LightsRoundTrip |
| Snapshots.FurnitureIn | modelInteraction.js:127-132 | the furniture registry `applyState` rebuilds, one `{ helper }` per furniture entry in snapshot order; proved by FurnitureAppend and FurnitureRoundTrip |
| Snapshots.CollisionsIn | modelInteraction.js:133-143 | the box registry either `applyState` rebuilds, one entry with its dimensions per collision entry in snapshot order; proved by CollisionsAppend and CollisionRoundTrip |
| Snapshots.SaveStateRoundTrip | modelInteraction.js:19-51 | capture then rebuild gives back all three registries: no entry lost, none invented, order kept |
| Snapshots.SaveStatePoses | modelInteraction.js:21-49 | every snapshot item holds the transform its object had when `saveState` was called |
| Snapshots.DistinctAllLast | modelInteraction.js:119-145 | in a snapshot whose entries name objects with pairwise different transforms, every entry is last for its object |
| Snapshots.SaveStateTarget | modelInteraction.js:21-49 | entry i of the scene snapshot names object i of the lights, then the furniture groups, then the box meshes |
| Snapshots.SaveStateAllLast | modelInteraction.js:21-49 | when the registry objects each have their own transform, every entry of the scene snapshot is last for its object, so `applyState` gives each object the transform recorded for it |
| Snapshots.CollisionStateAllLast | js/interaction/collisionInteraction.js:16-28 | when the boxes each have their own transform, every entry of the collision snapshot is last for its box |
| HistoryStacks.Push | modelInteraction.js:55-69 | the new present is the capture and `future` is empty, so a redo is a no-op; the old present is on top of `past`; past the bound exactly the oldest entry is dropped; past and future together never exceed `maxHistoryPoints - 1` snapshots |
| HistoryStacks.Undo | modelInteraction.js:72-83 | an empty `past` changes nothing; otherwise one snapshot moves from `past` to `present` and the old present goes onto `future`; the bound is kept; a redo right after restores all three stacks |
| HistoryStacks.Redo | modelInteraction.js:86-97 | the mirror image of Undo: an empty `future` changes nothing, otherwise exactly one snapshot moves |
| HistoryStacks.RedoThenUndo | modelInteraction.js:72-97 | an undo right after a redo that did something restores all three stacks |
| HistoryStacks.UndoNThenRedoN | modelInteraction.js:72-97 | n available undos followed by n redos restore the history exactly |
| HistoryStacks.UndoNStaysInHistory | modelInteraction.js:72-83 | however often one undoes, the present is one of the snapshots the history held |
| HistoryStacks.PushAllKeepsNewest | modelInteraction.js:55-69 | after any number of pushes, past followed by present is exactly the newest `maxHistoryPoints` snapshots of everything pushed |
| HistoryStacks.PushFiveWithCapacityThree | modelInteraction.js:57-62 | with capacity 3, five pushes keep only the two latest earlier snapshots; no number of undos brings back an older one |
| Keys.Classify | modelInteraction.js:152-162 | the undo, redo and delete bindings exclude each other, and each shortcut is recognised exactly when its key test holds |
| Preview.Except | js/menus/menuManager.js:426-432 | every menu button but the preview button is kept, and nothing else; ExceptAppend adds that they keep the order of `menuButtons` |
| Preview.ExceptAppend | js/menus/menuManager.js:426-432 | filtering out the preview button distributes over concatenation, so the kept buttons stay in `menuButtons` order, the order `hiddenButtons` is pushed in |
| Preview.ButtonsToHide | js/menus/menuManager.js:418-432 | the transform bar comes first when present, then every menu button but the preview button, and nothing else; the menu buttons follow as Except gives them, in `menuButtons` order |
| Preview.ShowAll | js/menus/menuManager.js:455-457 | every hidden button is shown again and no other button changes |
| Preview.PlainRecord | js/menus/menuManager.js:378-383 | a helper is recorded, as itself, exactly when it is still visible at its turn |
| Preview.SphereRecord | js/menus/menuManager.js:386-403 | only helper spheres of the groups are recorded and only they are added to the hidden set, which keeps what was hidden before |
| Preview.SphereRecordHidden | js/menus/menuManager.js:386-403 | the hidden set after the pass is the one before plus exactly the recorded spheres |
| Preview.SphereRecordFlags | js/menus/menuManager.js:394-398 | each recorded entry stores the visibility its sphere had at its turn: visible before and not yet hidden by an earlier pass or entry |
| Preview.SphereRecordCovers | js/menus/menuManager.js:386-403 | every group visible before and not already hidden whose first sphere child exists has that sphere recorded |
| Preview.SphereRecordComplete | js/menus/menuManager.js:386-403 | when groups and spheres are all different objects, no sphere belongs to two groups, and none of them was hidden by an earlier pass, each visible group with a sphere records it together with the sphere's own visibility before the pass |
| Preview.HideIfVisible | js/menus/menuManager.js:379-381 | reports whether the object was still visible and leaves it hidden |
| Preview.HidePlain | js/menus/menuManager.js:406-411 | the loop records exactly PlainRecord and hides every object it visits |
| Preview.HideSphereOf | js/menus/menuManager.js:387-402 | a visible group with a sphere records the sphere with its current visibility and hides it; otherwise nothing changes |
| Preview.HideSpheres | js/menus/menuManager.js:386-403 | the loop records exactly SphereRecord and hides exactly those spheres |
| Preview.HideHelpers | js/menus/menuManager.js:377-411 | the record is Record() of the visibility before the passes; every light helper and every box ends hidden; every furniture group that is not itself a light helper, a sphere or a box keeps its visibility, since only its sphere is hidden |
| Preview.Record | js/menus/menuManager.js:377-411 | the whole `hiddenHelpers` of `enterPreviewMode`: the light-helper pass, then the furniture pass with the light helpers already hidden, then the box pass with everything hidden so far; what it holds is proved by RecordObjects, RecordEntries, RecordRestoresPlain and RecordHasPlain |
| Preview.RecordObjects | js/menus/menuManager.js:443-451 | the restore loop writes only objects the passes looked at |
| Preview.RecordEntries | js/menus/menuManager.js:378-411 | every record entry is a plain entry for an object visible before, or names a helper sphere |
| Preview.RecordRestoresPlain | js/menus/menuManager.js:378-411 | a light helper or box that is not a sphere is recorded exactly when it was visible, and its last entry is a plain one |
| Preview.RecordHasPlain | js/menus/menuManager.js:378-411 | a light helper or box that was visible gets a plain entry |
| Preview.LastHiddenMeans | js/menus/menuManager.js:443-451 | an entry is last for its object exactly when no later entry names the same object |
| Preview.RestoreEntry | js/menus/menuManager.js:444-450 | a stored sphere gets its stored value back, any other entry becomes visible |
| Preview.RestoreAll | js/menus/menuManager.js:443-451 | every recorded object ends with the visibility of the last entry naming it |
| Editor.CreateLight | js/menus/menuManager.js:209-222 | a fresh light at the spawn position, a fresh helper, and a target one unit below exactly for a spot light |
| Editor.CreateFurniture | js/menus/menuManager.js:246-258 | a fresh, visible helper group at the position, holding a fresh, visible helper sphere |
| Editor.CreateCollisionBox | js/menus/menuManager.js:281-288 | a fresh, selectable, visible box at the position |
| Editor.MenuManager.constructor | js/menus/menuManager.js:18-27 | empty registries, no controls and no histories wired, not in preview, nothing hidden |
| Editor.MenuManager.SetTransformControls | js/menus/menuManager.js:304-306 | sets that one reference and nothing else |
| Editor.MenuManager.SetHistory | js/menus/menuManager.js:309-311 | sets that one reference and nothing else |
| Editor.MenuManager.SetCollisionTransformControls | js/menus/menuManager.js:314-316 | sets that one reference and nothing else |
| Editor.MenuManager.SetCollisionHistory | js/menus/menuManager.js:318-320 | sets that one reference and nothing else |
| Editor.MenuManager.HandleLightSelection | js/menus/menuManager.js:204-239 | an unknown type changes nothing and pushes nothing; a known one appends one entry and adds its objects to the scene; it pushes the scene history exactly when one is set |
| Editor.MenuManager.AddLight | js/menus/menuManager.js:228-231 | the entry is appended and its objects, target included, join the scene |
| Editor.MenuManager.HandleFurnitureSelection | js/menus/menuManager.js:241-274 | an unknown name changes nothing; a known one appends one entry whose group joins the scene and pushes the scene history when one is set |
| Editor.MenuManager.HandleCollisionSelection | js/menus/menuManager.js:276-301 | appends one 2 x 2 x 2 box that joins the scene and pushes the collision history, not the scene history, when one is set |
| Editor.MenuManager.TogglePreview | js/menus/menuManager.js:363-369 | flips preview mode; entering does all that EnterPreviewMode does (Entered); leaving restores the record, shows the recorded buttons again and empties both lists |
| Editor.MenuManager.EnterPreviewMode | js/menus/menuManager.js:371-437 | every light helper and box is hidden and every furniture group that is not also a light helper, sphere or box keeps its visibility; the record is EnterRecord() of the state before; the controls are detached; the buttons are hidden and recorded; the registries are untouched |
| Editor.MenuManager.HideControls | js/menus/menuManager.js:413-432 | detaches the controls and hides and records exactly ButtonsToHide |
| Editor.MenuManager.HideSceneHelpers | js/menus/menuManager.js:372-411 | enters preview mode, with the record EnterRecord(), every light helper and box hidden and every furniture group that is not also a light helper, sphere or box at its old visibility |
| Editor.MenuManager.ExitPreviewMode | js/menus/menuManager.js:439-463 | leaves preview; every recorded object gets the visibility of its last entry; the recorded buttons are shown; both lists are empty |
| Editor.MenuManager.PreviewRoundTrip | js/menus/menuManager.js:371-463 | entering then leaving preview gives every light helper and box back the visibility it had, so a helper that was hidden before stays hidden |
| Editor.MenuManager.ExitRestoring | js/menus/menuManager.js:439-463 | leaving preview after the passes recorded Record() and hid every light helper and box makes each of them visible exactly when it was visible before the passes |
| Editor.RemoveLights | modelInteraction.js:102-105 | exactly the registered lights and helpers leave the scene |
| Editor.RemoveFurniture | modelInteraction.js:106-108 | exactly the registered groups leave the scene |
| Editor.RemoveBoxes | js/interaction/collisionInteraction.js:64-66 | exactly the registered boxes leave the scene |
| Editor.SceneHistory.constructor | modelInteraction.js:12-16 | empty stacks, an empty present and a bound of 20 |
| Editor.MenuManager.SceneSnapshot | modelInteraction.js:19-51 | what the scene history's `saveState` returns on the current registries: SaveState of the lights, furniture and boxes |
| Editor.MenuManager.CollisionSnapshot | js/interaction/collisionInteraction.js:16-29 | what the collision history's `saveState` returns: CollisionState of the boxes |
| Editor.SceneHistory.Push | modelInteraction.js:55-69 | the stacks change as HistoryStacks.Push does, with the present a capture of the three registries |
| Editor.SceneHistory.Undo | modelInteraction.js:72-83 | the stacks change as HistoryStacks.Undo does; an empty `past` leaves the registries and the scene untouched; otherwise the new present is applied |
| Editor.SceneHistory.Redo | modelInteraction.js:86-97 | the stacks change as HistoryStacks.Redo does; an empty `future` leaves everything untouched; otherwise the new present is applied |
| Editor.SceneHistory.Applied | modelInteraction.js:100-146 | the state after `applyState(s)`: the registries are LightsIn, FurnitureIn and CollisionsIn of `s`; the scene lost every object registered before and gained every object registered now; each object named by an entry that is last for it has that entry's transform; wiring and preview are untouched |
| Editor.SceneHistory.ApplyState | modelInteraction.js:100-146 | each registry becomes the entries of its kind in the snapshot, in order; the scene loses the old objects and gains the new; each object gets its last entry's transform |
| Editor.SceneHistory.ClearScene | modelInteraction.js:101-116 | the registered objects leave the scene and the three registries become empty |
| Editor.SceneHistory.Rebuild | modelInteraction.js:118-145 | starting from empty registries, the loop leaves exactly the snapshot's entries registered and in the scene, each with its stored transform |
| Editor.SceneHistory.RestoreItem | modelInteraction.js:119-145 | one turn of the loop keeps the rebuilt-prefix invariant one entry further |
| Editor.SceneHistory.CopyItemPose | modelInteraction.js:121-123 | the entry's object gets the stored transform and no other object's transform changes |
| Editor.SceneHistory.Register | modelInteraction.js:124-143 | the entry's objects join the scene and its registry entry is appended to the registry of its kind |
| Editor.CollisionHistory.constructor | js/interaction/collisionInteraction.js:9-13 | empty stacks, an empty present and a bound of 20 |
| Editor.CollisionHistory.Push | js/interaction/collisionInteraction.js:32-41 | the stacks change as HistoryStacks.Push does, with the present a capture of the boxes only |
| Editor.CollisionHistory.Undo | js/interaction/collisionInteraction.js:44-50 | the stacks change as HistoryStacks.Undo does; an empty `past` changes nothing else; otherwise the new present is applied |
| Editor.CollisionHistory.Redo | js/interaction/collisionInteraction.js:53-59 | the mirror image of Undo |
| Editor.CollisionHistory.Applied | js/interaction/collisionInteraction.js:62-86 | the state after this history's `applyState(s)`: the boxes are CollisionsIn of `s`; lights and furniture are untouched; the scene swapped the old boxes for the new; each box named by a last collision entry has its transform; wiring and preview are untouched |
| Editor.CollisionHistory.ApplyState | js/interaction/collisionInteraction.js:62-86 | the boxes become the snapshot's collision items, in order, with their dimensions; other items are ignored; lights and furniture are untouched; each box gets its stored transform |
| Editor.CollisionHistory.ClearBoxes | js/interaction/collisionInteraction.js:64-69 | the registered boxes leave the scene and the box registry empties; the other registries are untouched |
| Editor.CollisionHistory.RebuildBoxes | js/interaction/collisionInteraction.js:72-85 | the loop registers exactly the collision items, skips the rest, and leaves lights and furniture alone |
| Editor.CollisionHistory.RestoreBox | js/interaction/collisionInteraction.js:73-84 | one turn of the loop keeps the rebuilt-prefix invariant one entry further |
| Editor.CollisionHistory.CopyBoxPose | js/interaction/collisionInteraction.js:74-76 | the box gets the stored transform |
| Interaction.ModelInteraction.Deleted | modelInteraction.js:165-190 | the registries and scene after deleting `o`: a light is spliced out of the lights with its helper; any other selectable object out of the boxes or, when no box matches, the furniture; its objects leave the scene; an object that is neither changes nothing |
| Interaction.ModelInteraction.DeleteSelected | modelInteraction.js:166-190 | a light is looked up among the lights only; another selectable object among the boxes first and then the furniture; the first match is spliced out and its objects leave the scene; no other registry changes |
| Interaction.ModelInteraction.HandleKeyDown | modelInteraction.js:150-200 | Ctrl+Z undoes and Ctrl+Y or Ctrl+Shift+Z redoes, as the history says; with an empty stack the registries and scene are untouched, otherwise the entry is applied; of the transforms the stack tops name only those of the entry undone or redone move; Delete or Backspace with an object selected deletes it, detaches the controls and pushes, whether or not an entry matched; anything else changes nothing; the wiring and the preview state are never touched |
| Interaction.CollisionInteraction.BoxDeleted | js/interaction/collisionInteraction.js:104-113 | the registries and scene after deleting `o`: the first box entry matching it by identity is spliced out and its box leaves the scene; lights and furniture are untouched |
| Interaction.CollisionInteraction.DeleteSelected | js/interaction/collisionInteraction.js:104-113 | the selected object is looked up among the boxes whatever its flags; the first match is spliced out and leaves the scene; lights and furniture are untouched |
| Interaction.CollisionInteraction.HandleKeyDown | js/interaction/collisionInteraction.js:90-120 | the same bindings on the collision history, with the same empty-stack, transform-frame, wiring and preview clauses; Delete with something selected removes the matching box, if any, detaches and pushes |

## Left out

- Rendering, raycast selection, the transform gizmo's modes and buttons, and the submenus are not modelled. This includes `hideTransformButtons`, `hideAllSubmenus` and `event.preventDefault`, which have no effect on the modelled state.
- Spawn positions are inputs. `calculateSpawnPosition` and `calculateLightPosition` are floating-point raycasts.
- Transforms are opaque values that are only copied. `clone` and `copy` become copies of a `Pose` value.
- Light colours, intensities, angles and the rectangular light's `lookAt` are not modelled. Only the objects and the start position of each light are.
- Editor.CreateLight: every light starts with rotation `Origin`. For the rectangular light that is the model's value only: `lookAt` (js/loaders/rectLight.js:13) turns it toward the point one unit below it.
- The asynchronous model loading of furniture is not modelled, because it is a callback into the loader.
- `previewBtn`'s text and colour are not modelled, because they are cosmetic.
- The DOM is reduced to a set of hidden buttons. The nodes returned by `querySelector` and `querySelectorAll` are inputs.
- `scene.add(collisionSetup.helper)` in `handleCollisionSelection` adds `undefined`. That is at most a console error in the library, so the model leaves it out.
- A spot light's target object stays in the scene forever. Neither `applyState` nor Delete removes it, and `applyState` rebuilds light entries without it. The model follows this exactly (`Registry.WithoutTargets`) rather than deeming it an error.
- `setupModelInteraction` creates one red point light of its own and keeps it in a local array. It is never registered, so no history or Delete ever touches it. That setup code, and the rest of both setup functions, are not part of this model.
- The camera-collision override of `orbitControls.update` and everything in `js/bake`, `js/build`, `main.js` and the loaders are not part of this model.
- The object flags (is a light, `userData.isSelectable`, is a helper sphere) are fixed when the object is created, and the editor never changes them. The children of an object are fixed in the model, but the editor does change them: `createFurniture` adds the helper sphere to the group (js/loaders/furnitureLoader.js:16) and, once the model file has loaded, the model too (js/loaders/furnitureLoader.js:54). The model comes after the sphere, so `children.find` still returns the sphere, and the model child itself is left out.
- Editor.MenuManager.EnterPreviewMode: the furniture pass is stated through the record, `hiddenHelpers == old(EnterRecord())`. The visibility in which each helper sphere ends up is not stated separately.
- Editor.MenuManager.PreviewRoundTrip: the round trip is stated for light helpers and boxes only. It requires that none of them is also a helper sphere (`Roles`), which every menu operation keeps. Without that, a light helper that is also some group's sphere is recorded a second time, by the furniture pass, as already hidden, and stays hidden after exit. The round trip for the spheres themselves is not stated, because a sphere shared by two visible groups is recorded twice.
- Editor.SceneHistory.Undo: `Roles` is not carried across `applyState`. A snapshot may name any object, so the preview round trip after an undo needs `Roles` again.
