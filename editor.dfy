/**
 * The editor's mutable state and its operations: the menu manager (the
 * three registries, the two history references and preview mode), the
 * scene history of modelInteraction.js, the collision-box history of
 * collisionInteraction.js, and the keyboard handlers that drive them.
 *
 * The two history objects are classes whose abstract value is a
 * `HistoryStacks.Stacks<Snapshot>`: every method is proved to change
 * `past`, `present` and `future` exactly as the pure stack functions say,
 * so the stack laws proved there hold of the objects.
 */
module Editor {
  import opened SceneGraph
  import opened Registry
  import opened Snapshots
  import opened Keys
  import opened Preview
  import HistoryStacks

  /** `maxHistoryPoints` of both histories. */
  const MaxHistoryPoints: int := 20

  /** The transform gizmo, reduced to the object it is attached to (`transformControls.object`). */
  class TransformControls {
    var attached: Obj?

    constructor ()
      ensures attached == null
    {
      attached := null;
    }

    method Attach(o: Obj)
      modifies this
      ensures attached == o
    {
      attached := o;
    }

    method Detach()
      modifies this
      ensures attached == null
    {
      attached := null;
    }
  }

  predicate IsLightType(lightType: string)
  {
    lightType == "Point Light" || lightType == "Rectangular Light" || lightType == "Spot Light"
  }

  predicate IsFurnitureName(furnitureName: string)
  {
    furnitureName == "Chair" || furnitureName == "Sofa" || furnitureName == "Dining Table" || furnitureName == "Dining Chair"
  }

  /**
   * `createPointLight`, `createRectLight` and `createSpotLight` at `position`:
   * a new light and a new helper, and for a spot light a new target object
   * one unit below the light.  Every light starts with rotation `Origin`
   * here; that is the model's value for the rectangular light, which its
   * loader in fact turns with `lookAt` toward the point one unit below it
   * (js/loaders/rectLight.js:13).  Light colours, intensities and angles
   * are not modelled.
   */
  method CreateLight(lightType: string, position: Vec3) returns (e: LightSetup)
    requires IsLightType(lightType)
    ensures fresh(e.light) && fresh(e.light.transform) && fresh(e.helper) && fresh(e.helper.transform)
    ensures e.light.isLight && !e.helper.isLight && !e.helper.isHelperSphere && e.light.visible && e.helper.visible
    ensures e.light.CurrentPose() == Pose(position, Origin, UnitScale)
    ensures e.target.Some? <==> lightType == "Spot Light"
    ensures e.light != e.helper
    ensures e.target.Some? ==> fresh(e.target.value) && fresh(e.target.value.transform)
    ensures e.target.Some? ==> e.target.value != e.light && e.target.value != e.helper
    ensures e.target.Some? ==> e.target.value.CurrentPose().position == Vec3(position.x, position.y - 1.0, position.z)
  {
    var light := new Obj(position, [], true, false, false);
    var helper := new Obj(Origin, [], false, false, false);
    if lightType == "Spot Light" {
      var target := new Obj(Vec3(position.x, position.y - 1.0, position.z), [], false, false, false);
      e := LightSetup(light, helper, Some(target));
    } else {
      e := LightSetup(light, helper, None);
    }
  }

  /**
   * `createFurniture` at `position`, as `createChair`, `createSofa`,
   * `createDiningTable` and `createDiningChair` call it: a new helper group
   * holding a new wireframe helper sphere.  The model file it loads later
   * is not modelled.
   */
  method CreateFurniture(position: Vec3) returns (helper: Obj)
    ensures fresh(helper) && fresh(helper.transform)
    ensures helper.CurrentPose() == Pose(position, Origin, UnitScale)
    ensures helper.visible && !helper.isLight && !helper.isSelectable && !helper.isHelperSphere
    ensures FirstSphere(helper.children).Some? && fresh(FirstSphere(helper.children).value)
    ensures FirstSphere(helper.children).value.visible
  {
    var sphere := new Obj(Origin, [], false, false, true);
    helper := new Obj(position, [sphere], false, false, false);
  }

  /** The side width, height and depth of a box added from the menu. */
  const DefaultBoxSize: real := 2.0

  /** `createCollisionBox(x, y, z, 2, 2, 2)`: a new selectable box mesh at `position`. */
  method CreateCollisionBox(position: Vec3) returns (box: Obj)
    ensures fresh(box) && fresh(box.transform)
    ensures box.CurrentPose() == Pose(position, Origin, UnitScale)
    ensures box.visible && box.isSelectable && !box.isLight && !box.isHelperSphere
  {
    box := new Obj(position, [], false, true, false);
  }

  class MenuManager {
    const scene: Scene
    var lights: seq<LightSetup>
    var furniture: seq<FurnitureSetup>
    var collisionBoxes: seq<CollisionSetup>
    var transformControls: TransformControls?
    var collisionTransformControls: TransformControls?
    var history: SceneHistory?
    var collisionHistory: CollisionHistory?
    var isPreviewMode: bool
    var hiddenHelpers: seq<HiddenHelper>
    var hiddenButtons: seq<Button>
    const previewBtn: Button
    const document: Document

    /** A new manager: empty registries, no controls or histories wired yet, not in preview. */
    constructor (scene: Scene, document: Document)
      ensures this.scene == scene && this.document == document
      ensures lights == [] && furniture == [] && collisionBoxes == []
      ensures transformControls == null && collisionTransformControls == null
      ensures history == null && collisionHistory == null
      ensures !isPreviewMode && hiddenHelpers == [] && hiddenButtons == []
      ensures fresh(previewBtn)
    {
      this.scene := scene;
      lights := [];
      furniture := [];
      collisionBoxes := [];
      transformControls := null;
      collisionTransformControls := null;
      history := null;
      collisionHistory := null;
      isPreviewMode := false;
      hiddenHelpers := [];
      hiddenButtons := [];
      previewBtn := new Button();
      this.document := document;
    }

    /** The transforms `saveState` copies. */
    function Posed(): set<Transform>
      reads this
    {
      (set e | e in lights :: e.light.transform) + (set e | e in furniture :: e.helper.transform) +
      (set e | e in collisionBoxes :: e.collisionBox.transform)
    }

    /** What the scene history's `saveState` returns. */
    function SceneSnapshot(): Snapshot
      reads this, Posed()
    {
      SaveState(lights, furniture, collisionBoxes)
    }

    /** What the collision history's `saveState` returns. */
    function CollisionSnapshot(): Snapshot
      reads this, Posed()
    {
      CollisionState(collisionBoxes)
    }

    /** Every object the registries hold, i.e. everything `applyState` removes from the scene first. */
    function Registered(): set<Obj>
      reads this
    {
      LightObjects(lights) + FurnitureObjects(furniture) + BoxObjects(collisionBoxes)
    }

    twostate predicate RegistriesUnchanged()
      reads this
    {
      (lights, furniture, collisionBoxes) == old((lights, furniture, collisionBoxes))
    }

    twostate predicate WiringUnchanged()
      reads this
    {
      (transformControls, collisionTransformControls, history, collisionHistory)
        == old((transformControls, collisionTransformControls, history, collisionHistory))
    }

    twostate predicate PreviewUnchanged()
      reads this
    {
      (isPreviewMode, hiddenHelpers, hiddenButtons) == old((isPreviewMode, hiddenHelpers, hiddenButtons))
    }

    method SetTransformControls(tc: TransformControls?)
      modifies this
      ensures transformControls == tc
      ensures collisionTransformControls == old(collisionTransformControls)
      ensures history == old(history) && collisionHistory == old(collisionHistory)
      ensures RegistriesUnchanged() && PreviewUnchanged()
    {
      transformControls := tc;
    }

    method SetHistory(h: SceneHistory?)
      modifies this
      ensures history == h
      ensures transformControls == old(transformControls) && collisionTransformControls == old(collisionTransformControls)
      ensures collisionHistory == old(collisionHistory)
      ensures RegistriesUnchanged() && PreviewUnchanged()
    {
      history := h;
    }

    method SetCollisionTransformControls(tc: TransformControls?)
      modifies this
      ensures collisionTransformControls == tc
      ensures transformControls == old(transformControls)
      ensures history == old(history) && collisionHistory == old(collisionHistory)
      ensures RegistriesUnchanged() && PreviewUnchanged()
    {
      collisionTransformControls := tc;
    }

    method SetCollisionHistory(h: CollisionHistory?)
      modifies this
      ensures collisionHistory == h
      ensures transformControls == old(transformControls) && collisionTransformControls == old(collisionTransformControls)
      ensures history == old(history)
      ensures RegistriesUnchanged() && PreviewUnchanged()
    {
      collisionHistory := h;
    }

    /**
     * `handleLightSelection(type)` with the spawn position already computed:
     * an unknown type changes nothing; a known one creates the light at
     * `position`, adds it, its helper and (for a spot light) its target one
     * unit below to the scene, appends exactly one entry to `lights` and
     * pushes the scene history when one is set.
     */
    method HandleLightSelection(lightType: string, position: Vec3)
      modifies this, scene, history
      ensures history == old(history) && WiringUnchanged() && PreviewUnchanged()
      ensures furniture == old(furniture) && collisionBoxes == old(collisionBoxes)
      ensures old(Roles()) ==> Roles()
      ensures !IsLightType(lightType) ==> unchanged(this, scene) && (history != null ==> unchanged(history))
      ensures IsLightType(lightType) ==> |lights| == |old(lights)| + 1 && lights[..|old(lights)|] == old(lights)
      ensures IsLightType(lightType) ==>
                var e := lights[|lights| - 1];
                && fresh(e.light) && fresh(e.helper) && e.light != e.helper
                && e.light.isLight && e.light.CurrentPose() == Pose(position, Origin, UnitScale) && e.light.visible && e.helper.visible
                && !e.helper.isHelperSphere
                && (e.target.Some? <==> lightType == "Spot Light")
                && (e.target.Some? ==> fresh(e.target.value) && e.target.value.CurrentPose().position == Vec3(position.x, position.y - 1.0, position.z))
                && scene.objects == old(scene.objects) + {e.light, e.helper} + (if e.target.Some? then {e.target.value} else {})
      ensures IsLightType(lightType) && history != null ==>
                history.State() == HistoryStacks.Push(old(history.State()), history.menuManager.SceneSnapshot(), history.maxHistoryPoints)
    {
      if !IsLightType(lightType) {
        return;
      }
      var e := CreateLight(lightType, position);
      AddLight(e);
      if history != null {
        history.Push();
      }
    }

    /** The part of `handleLightSelection` between creating the light and pushing the history. */
    method AddLight(e: LightSetup)
      modifies this, scene
      ensures lights == old(lights) + [e]
      ensures old(Roles()) && !e.helper.isHelperSphere ==> Roles()
      ensures scene.objects == old(scene.objects) + {e.light, e.helper} + (if e.target.Some? then {e.target.value} else {})
      ensures furniture == old(furniture) && collisionBoxes == old(collisionBoxes)
      ensures WiringUnchanged() && PreviewUnchanged()
    {
      if e.target.Some? {
        scene.Add(e.target.value);
      }
      scene.Add(e.light);
      scene.Add(e.helper);
      lights := lights + [e];
    }

    /**
     * `handleFurnitureSelection(roomType, furnitureName)` with the spawn
     * position already computed: an unknown name changes nothing; a known
     * one creates the helper group at `position` with its wireframe sphere,
     * adds it to the scene, appends exactly one entry to `furniture` and
     * pushes the scene history when one is set.  The room type is not used.
     */
    method HandleFurnitureSelection(roomType: string, furnitureName: string, position: Vec3)
      modifies this, scene, history
      ensures history == old(history) && WiringUnchanged() && PreviewUnchanged()
      ensures lights == old(lights) && collisionBoxes == old(collisionBoxes)
      ensures old(Roles()) ==> Roles()
      ensures !IsFurnitureName(furnitureName) ==> unchanged(this, scene) && (history != null ==> unchanged(history))
      ensures IsFurnitureName(furnitureName) ==> |furniture| == |old(furniture)| + 1 && furniture[..|old(furniture)|] == old(furniture)
      ensures IsFurnitureName(furnitureName) ==>
                var h := furniture[|furniture| - 1].helper;
                && fresh(h) && h.CurrentPose() == Pose(position, Origin, UnitScale) && h.visible && !h.isLight && !h.isSelectable
                && FirstSphere(h.children).Some? && fresh(FirstSphere(h.children).value)
                && FirstSphere(h.children).value.visible
                && scene.objects == old(scene.objects) + {h}
      ensures IsFurnitureName(furnitureName) && history != null ==>
                history.State() == HistoryStacks.Push(old(history.State()), history.menuManager.SceneSnapshot(), history.maxHistoryPoints)
    {
      if !IsFurnitureName(furnitureName) {
        return;
      }
      var helper := CreateFurniture(position);
      scene.Add(helper);
      furniture := furniture + [FurnitureSetup(helper)];
      if history != null {
        history.Push();
      }
    }

    /**
     * `handleCollisionSelection()` with the spawn position already computed:
     * a selectable 2 x 2 x 2 box at `position` is added to the scene and
     * appended to `collisionBoxes`, and the COLLISION history (not the scene
     * history) is pushed when one is set.
     */
    method HandleCollisionSelection(position: Vec3)
      modifies this, scene, collisionHistory
      ensures collisionHistory == old(collisionHistory) && WiringUnchanged() && PreviewUnchanged()
      ensures lights == old(lights) && furniture == old(furniture)
      ensures old(Roles()) ==> Roles()
      ensures |collisionBoxes| == |old(collisionBoxes)| + 1 && collisionBoxes[..|old(collisionBoxes)|] == old(collisionBoxes)
      ensures var e := collisionBoxes[|collisionBoxes| - 1];
              && fresh(e.collisionBox) && e.collisionBox.CurrentPose() == Pose(position, Origin, UnitScale) && e.collisionBox.isSelectable
              && !e.collisionBox.isLight && !e.collisionBox.isHelperSphere && e.collisionBox.visible
              && e.width == DefaultBoxSize && e.height == DefaultBoxSize && e.depth == DefaultBoxSize
              && scene.objects == old(scene.objects) + {e.collisionBox}
      ensures collisionHistory != null ==>
                collisionHistory.State() == HistoryStacks.Push(old(collisionHistory.State()), collisionHistory.menuManager.CollisionSnapshot(), collisionHistory.maxHistoryPoints)
    {
      var box := CreateCollisionBox(position);
      scene.Add(box);
      collisionBoxes := collisionBoxes + [CollisionSetup(box, DefaultBoxSize, DefaultBoxSize, DefaultBoxSize)];
      if collisionHistory != null {
        collisionHistory.Push();
      }
    }

    /**
     * No light helper and no collision box is a helper sphere, so the
     * furniture pass of `enterPreviewMode` never touches them.  Every
     * object the menu creates is like this.
     */
    predicate Roles()
      reads this
    {
      && (forall j :: 0 <= j < |lights| ==> !lights[j].helper.isHelperSphere)
      && (forall j :: 0 <= j < |collisionBoxes| ==> !collisionBoxes[j].collisionBox.isHelperSphere)
    }

    /** Every object whose visibility `enterPreviewMode` reads or writes. */
    function PreviewObjects(): set<Obj>
      reads this
    {
      Objects(LightHelpers(lights), Groups(furniture), BoxMeshes(collisionBoxes))
    }

    /** The `hiddenHelpers` that `enterPreviewMode` builds in the current state. */
    function EnterRecord(): seq<HiddenHelper>
      reads this, PreviewObjects()
    {
      Record(LightHelpers(lights), Groups(furniture), BoxMeshes(collisionBoxes), VisibleOf(PreviewObjects()))
    }

    /**
     * What `enterPreviewMode` leaves behind: preview mode on and
     * `hiddenHelpers` EnterRecord() of the state before; every light
     * helper and collision box hidden, and every furniture group that is
     * not also a light helper, a helper sphere or a box as visible as
     * before (only its sphere is hidden); the transform controls detached; the transform buttons and
     * the menu buttons but the preview button hidden and appended to
     * `hiddenButtons`; the registries untouched.
     */
    twostate predicate Entered(transformButtons: Button?, menuButtons: seq<Button>)
      reads this, transformControls, document, PreviewObjects()
    {
      && RegistriesUnchanged() && WiringUnchanged()
      && isPreviewMode && hiddenHelpers == old(EnterRecord())
      && (var hs, gs, bs := old(LightHelpers(lights)), old(Groups(furniture)), old(BoxMeshes(collisionBoxes));
          HelpersHidden(hs, gs, bs, Hideable(hs, gs, bs), old(VisibleOf(PreviewObjects()))))
      && (transformControls != null ==> transformControls.attached == null)
      && hiddenButtons == old(hiddenButtons) + ButtonsToHide(transformButtons, menuButtons, previewBtn)
      && document.hidden == old(document.hidden) + ButtonSet(ButtonsToHide(transformButtons, menuButtons, previewBtn))
    }

    /**
     * `togglePreview()`, with the DOM queries of `enterPreviewMode` passed
     * in: `transformButtons` is `.transform-buttons` (or null when absent)
     * and `menuButtons` the `.menu-button` elements.
     */
    method TogglePreview(transformButtons: Button?, menuButtons: seq<Button>)
      modifies this, transformControls, document, PreviewObjects(), HiddenObjs(hiddenHelpers)
      ensures isPreviewMode == !old(isPreviewMode)
      ensures RegistriesUnchanged() && WiringUnchanged()
      ensures !old(isPreviewMode) ==> Entered(transformButtons, menuButtons)
      ensures old(isPreviewMode) ==> hiddenHelpers == [] && hiddenButtons == []
      ensures old(isPreviewMode) ==> forall i | 0 <= i < |old(hiddenHelpers)| && LastHidden(old(hiddenHelpers), i, |old(hiddenHelpers)|) ::
                old(hiddenHelpers)[i].obj.visible == RestoredVisible(old(hiddenHelpers)[i])
      ensures old(isPreviewMode) ==> document.hidden == old(document.hidden) - ButtonSet(old(hiddenButtons))
    {
      if !isPreviewMode {
        EnterPreviewMode(transformButtons, menuButtons);
      } else {
        ExitPreviewMode();
      }
    }

    /**
     * `enterPreviewMode()`: every light helper and collision box ends up
     * hidden, and so does the sphere of every visible furniture group;
     * `hiddenHelpers` becomes EnterRecord() of the state before; the
     * transform controls are detached; the transform buttons and every menu
     * button but the preview button are hidden and appended to
     * `hiddenButtons`.
     */
    method EnterPreviewMode(transformButtons: Button?, menuButtons: seq<Button>)
      modifies this, transformControls, document, PreviewObjects()
      ensures Entered(transformButtons, menuButtons)
    {
      ghost var hs, gs, bs := LightHelpers(lights), Groups(furniture), BoxMeshes(collisionBoxes);
      ghost var V := VisibleOf(PreviewObjects());
      HideSceneHelpers();
      assert HelpersHidden(hs, gs, bs, Hideable(hs, gs, bs), V);
      HideControls(transformButtons, menuButtons);
      assert HelpersHidden(hs, gs, bs, Hideable(hs, gs, bs), V);
    }

    /**
     * Pressing the preview button twice: `enterPreviewMode` and then
     * `exitPreviewMode`.  When no light helper and no box is a helper
     * sphere (Roles), each of them ends up as visible as it was before,
     * so one that was hidden already stays hidden.
     */
    method PreviewRoundTrip(transformButtons: Button?, menuButtons: seq<Button>)
      requires !isPreviewMode && Roles()
      modifies this, transformControls, document, PreviewObjects()
      ensures !isPreviewMode && hiddenHelpers == [] && hiddenButtons == []
      ensures RegistriesUnchanged() && WiringUnchanged()
      ensures forall j :: 0 <= j < |lights| ==> lights[j].helper.visible == old(lights[j].helper.visible)
      ensures forall j :: 0 <= j < |collisionBoxes| ==>
                collisionBoxes[j].collisionBox.visible == old(collisionBoxes[j].collisionBox.visible)
    {
      ghost var hs, gs, bs := LightHelpers(lights), Groups(furniture), BoxMeshes(collisionBoxes);
      ghost var W := VisibleOf(PreviewObjects());
      RecordObjects(hs, gs, bs, W);
      EnterPreviewMode(transformButtons, menuButtons);
      assert hiddenHelpers == Record(hs, gs, bs, W) && HelpersHidden(hs, gs, bs, Hideable(hs, gs, bs), W);
      ExitRestoring(hs, gs, bs, W);
    }

    /**
     * `exitPreviewMode()` once `enterPreviewMode()` has recorded
     * `Record(hs, gs, bs, W)` and hidden every light helper and box: each
     * of those that is not a helper sphere ends up visible exactly when it
     * was in `W`.
     */
    method ExitRestoring(ghost hs: seq<Obj>, ghost gs: seq<Obj>, ghost bs: seq<Obj>, ghost W: set<Obj>)
      requires hiddenHelpers == Record(hs, gs, bs, W)
      requires forall j :: 0 <= j < |hs| ==> !hs[j].visible && !hs[j].isHelperSphere
      requires forall j :: 0 <= j < |bs| ==> !bs[j].visible && !bs[j].isHelperSphere
      modifies this, HiddenObjs(hiddenHelpers), document
      ensures !isPreviewMode && hiddenHelpers == [] && hiddenButtons == []
      ensures RegistriesUnchanged() && WiringUnchanged()
      ensures forall j :: 0 <= j < |hs| ==> hs[j].visible == (hs[j] in W)
      ensures forall j :: 0 <= j < |bs| ==> bs[j].visible == (bs[j] in W)
    {
      ExitPreviewMode();
      forall j | 0 <= j < |hs|
        ensures hs[j].visible == (hs[j] in W)
      {
        RecordRestoresPlain(hs, gs, bs, W, hs[j]);
      }
      forall j | 0 <= j < |bs|
        ensures bs[j].visible == (bs[j] in W)
      {
        RecordRestoresPlain(hs, gs, bs, W, bs[j]);
      }
    }

    /** The part of `enterPreviewMode` that detaches the transform controls and hides the buttons. */
    method HideControls(transformButtons: Button?, menuButtons: seq<Button>)
      modifies this, transformControls, document
      ensures transformControls != null ==> transformControls.attached == null
      ensures hiddenButtons == old(hiddenButtons) + ButtonsToHide(transformButtons, menuButtons, previewBtn)
      ensures document.hidden == old(document.hidden) + ButtonSet(ButtonsToHide(transformButtons, menuButtons, previewBtn))
      ensures isPreviewMode == old(isPreviewMode) && hiddenHelpers == old(hiddenHelpers)
      ensures RegistriesUnchanged() && WiringUnchanged()
    {
      if transformControls != null {
        transformControls.Detach();
      }
      var buttons := ButtonsToHide(transformButtons, menuButtons, previewBtn);
      document.hidden := document.hidden + ButtonSet(buttons);
      hiddenButtons := hiddenButtons + buttons;
    }

    /** The part of `enterPreviewMode` that hides and records the helpers. */
    method HideSceneHelpers()
      modifies this, PreviewObjects()
      ensures isPreviewMode && hiddenHelpers == old(EnterRecord())
      ensures var hs, gs, bs := old(LightHelpers(lights)), old(Groups(furniture)), old(BoxMeshes(collisionBoxes));
              HelpersHidden(hs, gs, bs, Hideable(hs, gs, bs), old(VisibleOf(PreviewObjects())))
      ensures hiddenButtons == old(hiddenButtons)
      ensures RegistriesUnchanged() && WiringUnchanged()
    {
      var hs, gs, bs := LightHelpers(lights), Groups(furniture), BoxMeshes(collisionBoxes);
      var hidden := HideHelpers(hs, gs, bs, PreviewObjects());
      isPreviewMode, hiddenHelpers := true, hidden;
    }

    /**
     * `exitPreviewMode()`: every object named in `hiddenHelpers` gets the
     * visibility of the last entry naming it (a stored sphere its stored
     * value, anything else visible), every hidden button is shown again,
     * and both lists are emptied.
     */
    method ExitPreviewMode()
      modifies this, HiddenObjs(hiddenHelpers), document
      ensures !isPreviewMode && hiddenHelpers == [] && hiddenButtons == []
      ensures forall i | 0 <= i < |old(hiddenHelpers)| && LastHidden(old(hiddenHelpers), i, |old(hiddenHelpers)|) ::
                old(hiddenHelpers)[i].obj.visible == RestoredVisible(old(hiddenHelpers)[i])
      ensures document.hidden == old(document.hidden) - ButtonSet(old(hiddenButtons))
      ensures RegistriesUnchanged() && WiringUnchanged()
    {
      isPreviewMode := false;
      RestoreAll(hiddenHelpers);
      hiddenHelpers := [];
      ShowAll(document, hiddenButtons);
      hiddenButtons := [];
    }
  }

  /** `lights.forEach(light => { scene.remove(light.light); scene.remove(light.helper); })` */
  method RemoveLights(scene: Scene, ls: seq<LightSetup>)
    modifies scene
    ensures scene.objects == old(scene.objects) - LightObjects(ls)
  {
    for i := 0 to |ls|
      invariant scene.objects == old(scene.objects) - LightObjects(ls[..i])
    {
      assert ls[..i + 1][..i] == ls[..i];
      scene.Remove(ls[i].light);
      scene.Remove(ls[i].helper);
    }
    assert ls[..|ls|] == ls;
  }

  /** `furniture.forEach(furniture => { scene.remove(furniture.helper); })` */
  method RemoveFurniture(scene: Scene, fs: seq<FurnitureSetup>)
    modifies scene
    ensures scene.objects == old(scene.objects) - FurnitureObjects(fs)
  {
    for i := 0 to |fs|
      invariant scene.objects == old(scene.objects) - FurnitureObjects(fs[..i])
    {
      assert fs[..i + 1][..i] == fs[..i];
      scene.Remove(fs[i].helper);
    }
    assert fs[..|fs|] == fs;
  }

  /** `collisionBoxes.forEach(box => { scene.remove(box.collisionBox); })` */
  method RemoveBoxes(scene: Scene, cs: seq<CollisionSetup>)
    modifies scene
    ensures scene.objects == old(scene.objects) - BoxObjects(cs)
  {
    for i := 0 to |cs|
      invariant scene.objects == old(scene.objects) - BoxObjects(cs[..i])
    {
      assert cs[..i + 1][..i] == cs[..i];
      scene.Remove(cs[i].collisionBox);
    }
    assert cs[..|cs|] == cs;
  }

  /** The scene history of modelInteraction.js: snapshots of all three registries. */
  class SceneHistory {
    var past: seq<Snapshot>
    var present: Snapshot
    var future: seq<Snapshot>
    const maxHistoryPoints: int
    const menuManager: MenuManager
    const scene: Scene

    constructor (scene: Scene, menuManager: MenuManager)
      ensures this.scene == scene && this.menuManager == menuManager
      ensures past == [] && present == [] && future == [] && maxHistoryPoints == MaxHistoryPoints
    {
      this.scene := scene;
      this.menuManager := menuManager;
      past := [];
      present := [];
      future := [];
      maxHistoryPoints := MaxHistoryPoints;
    }

    /** The abstract value. */
    function State(): HistoryStacks.Stacks<Snapshot>
      reads this
    {
      HistoryStacks.Stacks(past, present, future)
    }

    /** The transforms an undo may restore. */
    function UndoTransforms(): set<Transform>
      reads this
    {
      if |past| > 0 then Transforms(past[|past| - 1]) else {}
    }

    /** The transforms a redo may restore. */
    function RedoTransforms(): set<Transform>
      reads this
    {
      if |future| > 0 then Transforms(future[|future| - 1]) else {}
    }

    /**
     * The effect of `applyState(s)`: the registries hold exactly the
     * entries of `s` of each kind, in snapshot order; the scene lost every
     * object the registries held before and gained every object they hold
     * now; every object gets the transform of the last entry of `s` naming
     * it; the rest of the menu manager is untouched (and, as the methods'
     * frames say, so is everything of the objects but their transforms).
     */
    twostate predicate Applied(s: Snapshot)
      reads this, menuManager, scene, Transforms(s)
    {
      && menuManager.lights == LightsIn(s)
      && menuManager.furniture == FurnitureIn(s)
      && menuManager.collisionBoxes == CollisionsIn(s)
      && scene.objects == (old(scene.objects) - old(menuManager.Registered())) + menuManager.Registered()
      && (forall i | 0 <= i < |s| && LastFor(s, i) :: s[i].Target().CurrentPose() == s[i].pose)
      && menuManager.WiringUnchanged() && menuManager.PreviewUnchanged()
    }

    /** `history.push()`: the current registries become the present. */
    method Push()
      modifies this
      ensures State() == HistoryStacks.Push(old(State()), menuManager.SceneSnapshot(), maxHistoryPoints)
    {
      ghost var h := State();
      var grown := past + [present];
      if |grown| > maxHistoryPoints - 1 {
        grown := grown[1..];
      }
      past, present, future := grown, menuManager.SceneSnapshot(), [];
      assert State() == HistoryStacks.Push(h, present, maxHistoryPoints);
    }

    /** `history.undo()`: nothing at all when `past` is empty, otherwise step back and apply the new present. */
    method Undo()
      modifies this, menuManager, scene, UndoTransforms()
      ensures State() == HistoryStacks.Undo(old(State()))
      ensures |old(past)| == 0 ==> unchanged(menuManager, scene)
      ensures |old(past)| > 0 ==> Applied(present)
    {
      if |past| == 0 {
        return;
      }
      past, present, future := past[..|past| - 1], past[|past| - 1], future + [present];
      ApplyState(present);
    }

    /** `history.redo()`: nothing at all when `future` is empty, otherwise step forward and apply the new present. */
    method Redo()
      modifies this, menuManager, scene, RedoTransforms()
      ensures State() == HistoryStacks.Redo(old(State()))
      ensures |old(future)| == 0 ==> unchanged(menuManager, scene)
      ensures |old(future)| > 0 ==> Applied(present)
    {
      if |future| == 0 {
        return;
      }
      past, present, future := past + [present], future[|future| - 1], future[..|future| - 1];
      ApplyState(present);
    }

    /** `history.applyState(s)`: clear the scene of the registered objects, then rebuild from `s`. */
    method ApplyState(s: Snapshot)
      modifies menuManager, scene, Transforms(s)
      ensures Applied(s)
    {
      ClearScene();
      Rebuild(s);
    }

    /** The first half of `applyState`: remove every registered object from the scene and empty the registries. */
    method ClearScene()
      modifies menuManager, scene
      ensures scene.objects == old(scene.objects) - old(menuManager.Registered())
      ensures menuManager.lights == [] && menuManager.furniture == [] && menuManager.collisionBoxes == []
      ensures menuManager.WiringUnchanged() && menuManager.PreviewUnchanged()
    {
      RemoveLights(scene, menuManager.lights);
      RemoveFurniture(scene, menuManager.furniture);
      RemoveBoxes(scene, menuManager.collisionBoxes);
      menuManager.lights, menuManager.furniture, menuManager.collisionBoxes := [], [], [];
    }

    /** The registries hold what entries `0 .. k-1` of `s` rebuild. */
    ghost predicate RegistriesAt(s: Snapshot, k: int)
      requires 0 <= k <= |s|
      reads menuManager
    {
      (menuManager.lights, menuManager.furniture, menuManager.collisionBoxes)
        == (LightsIn(s[..k]), FurnitureIn(s[..k]), CollisionsIn(s[..k]))
    }

    /** Every object entries `0 .. k-1` of `s` name carries the transform of the last of them naming it. */
    ghost predicate PosesAt(s: Snapshot, k: int)
      requires 0 <= k <= |s|
      reads Transforms(s)
    {
      forall i | 0 <= i < k && LastBefore(s, i, k) :: s[i].Target().CurrentPose() == s[i].pose
    }

    /** Entries `0 .. k-1` of `s` have been applied on top of the scene objects `base`. */
    ghost predicate RebuiltUpTo(s: Snapshot, k: int, base: set<Obj>)
      requires 0 <= k <= |s|
      reads menuManager, scene, Transforms(s)
    {
      RegistriesAt(s, k) && scene.objects == base + menuManager.Registered() && PosesAt(s, k)
    }

    /** The second half of `applyState`: one pass over `s`, restoring transforms and re-adding and re-registering each object. */
    method Rebuild(s: Snapshot)
      requires menuManager.lights == [] && menuManager.furniture == [] && menuManager.collisionBoxes == []
      modifies menuManager, scene, Transforms(s)
      ensures menuManager.lights == LightsIn(s)
      ensures menuManager.furniture == FurnitureIn(s)
      ensures menuManager.collisionBoxes == CollisionsIn(s)
      ensures scene.objects == old(scene.objects) + menuManager.Registered()
      ensures forall i | 0 <= i < |s| && LastFor(s, i) :: s[i].Target().CurrentPose() == s[i].pose
      ensures menuManager.WiringUnchanged() && menuManager.PreviewUnchanged()
    {
      ghost var base := scene.objects;
      assert s[..0] == [];
      for k := 0 to |s|
        invariant RebuiltUpTo(s, k, base)
        invariant menuManager.WiringUnchanged() && menuManager.PreviewUnchanged()
      {
        RestoreItem(s, k, base);
      }
      assert s[..|s|] == s;
    }

    /** The body of `applyState`'s loop for entry `k` of `s`. */
    method RestoreItem(s: Snapshot, k: int, ghost base: set<Obj>)
      requires 0 <= k < |s| && RebuiltUpTo(s, k, base)
      modifies menuManager, scene, s[k].Target().transform
      ensures RebuiltUpTo(s, k + 1, base)
      ensures menuManager.WiringUnchanged() && menuManager.PreviewUnchanged()
    {
      PrefixStep(s, k);
      RegisterItem(menuManager.lights, menuManager.furniture, menuManager.collisionBoxes, s[k]);
      CopyItemPose(s, k);
      Register(s[k]);
    }

    /**
     * The transform part of `applyState`'s loop for entry `k`: only that
     * entry's transform changes, which extends PosesAt from `k` to `k + 1`.
     */
    method CopyItemPose(s: Snapshot, k: int)
      requires 0 <= k < |s| && PosesAt(s, k)
      modifies s[k].Target().transform
      ensures s[k].Target().CurrentPose() == s[k].pose
      ensures forall i | 0 <= i < |s| && s[i].Target().transform != s[k].Target().transform :: s[i].Target().CurrentPose() == old(s[i].Target().CurrentPose())
      ensures PosesAt(s, k + 1)
    {
      s[k].Target().transform.Copy(s[k].pose);
    }

    /** Add the objects of `item` to the scene and its entry to the matching registry. */
    method Register(item: Item)
      modifies menuManager, scene
      ensures menuManager.lights == old(menuManager.lights) + LightOf(item)
      ensures menuManager.furniture == old(menuManager.furniture) + FurnitureOf(item)
      ensures menuManager.collisionBoxes == old(menuManager.collisionBoxes) + CollisionOf(item)
      ensures scene.objects == old(scene.objects) + ItemObjects(item)
      ensures menuManager.WiringUnchanged() && menuManager.PreviewUnchanged()
    {
      match item
      case LightItem(_, light, helper) =>
        scene.Add(light);
        scene.Add(helper);
        menuManager.lights := menuManager.lights + [LightSetup(light, helper, None)];
      case FurnitureItem(_, helper) =>
        scene.Add(helper);
        menuManager.furniture := menuManager.furniture + [FurnitureSetup(helper)];
      case CollisionItem(_, box, width, height, depth) =>
        scene.Add(box);
        menuManager.collisionBoxes := menuManager.collisionBoxes + [CollisionSetup(box, width, height, depth)];
    }
  }

  /** The collision-box history of collisionInteraction.js: snapshots of `collisionBoxes` only. */
  class CollisionHistory {
    var past: seq<Snapshot>
    var present: Snapshot
    var future: seq<Snapshot>
    const maxHistoryPoints: int
    const menuManager: MenuManager
    const scene: Scene

    constructor (scene: Scene, menuManager: MenuManager)
      ensures this.scene == scene && this.menuManager == menuManager
      ensures past == [] && present == [] && future == [] && maxHistoryPoints == MaxHistoryPoints
    {
      this.scene := scene;
      this.menuManager := menuManager;
      past := [];
      present := [];
      future := [];
      maxHistoryPoints := MaxHistoryPoints;
    }

    /** The abstract value. */
    function State(): HistoryStacks.Stacks<Snapshot>
      reads this
    {
      HistoryStacks.Stacks(past, present, future)
    }

    /** The box transforms an undo may restore. */
    function UndoTransforms(): set<Transform>
      reads this
    {
      if |past| > 0 then BoxTransforms(past[|past| - 1]) else {}
    }

    /** The box transforms a redo may restore. */
    function RedoTransforms(): set<Transform>
      reads this
    {
      if |future| > 0 then BoxTransforms(future[|future| - 1]) else {}
    }

    /**
     * The effect of this history's `applyState(s)`: `collisionBoxes` holds
     * exactly the collision entries of `s`, in order, with their
     * dimensions; entries of other kinds are ignored and the light and
     * furniture registries are untouched; the scene swapped the old boxes
     * for the new ones; each box gets the transform of the last entry
     * naming it.
     */
    twostate predicate Applied(s: Snapshot)
      reads this, menuManager, scene, BoxTransforms(s)
    {
      && menuManager.collisionBoxes == CollisionsIn(s)
      && menuManager.lights == old(menuManager.lights) && menuManager.furniture == old(menuManager.furniture)
      && scene.objects == (old(scene.objects) - old(BoxObjects(menuManager.collisionBoxes))) + BoxObjects(menuManager.collisionBoxes)
      && (forall i | 0 <= i < |s| && s[i].CollisionItem? && LastFor(s, i) :: s[i].collisionBox.CurrentPose() == s[i].pose)
      && menuManager.WiringUnchanged() && menuManager.PreviewUnchanged()
    }

    /** `history.push()`: the current boxes become the present. */
    method Push()
      modifies this
      ensures State() == HistoryStacks.Push(old(State()), menuManager.CollisionSnapshot(), maxHistoryPoints)
    {
      ghost var h := State();
      var grown := past + [present];
      if |grown| > maxHistoryPoints - 1 {
        grown := grown[1..];
      }
      past, present, future := grown, menuManager.CollisionSnapshot(), [];
      assert State() == HistoryStacks.Push(h, present, maxHistoryPoints);
    }

    /** `history.undo()` */
    method Undo()
      modifies this, menuManager, scene, UndoTransforms()
      ensures State() == HistoryStacks.Undo(old(State()))
      ensures |old(past)| == 0 ==> unchanged(menuManager, scene)
      ensures |old(past)| > 0 ==> Applied(present)
    {
      if |past| == 0 {
        return;
      }
      past, present, future := past[..|past| - 1], past[|past| - 1], future + [present];
      ApplyState(present);
    }

    /** `history.redo()` */
    method Redo()
      modifies this, menuManager, scene, RedoTransforms()
      ensures State() == HistoryStacks.Redo(old(State()))
      ensures |old(future)| == 0 ==> unchanged(menuManager, scene)
      ensures |old(future)| > 0 ==> Applied(present)
    {
      if |future| == 0 {
        return;
      }
      past, present, future := past + [present], future[|future| - 1], future[..|future| - 1];
      ApplyState(present);
    }

    /** This history's `applyState(s)`: swap the registered boxes for the collision entries of `s`. */
    method ApplyState(s: Snapshot)
      modifies menuManager, scene, BoxTransforms(s)
      ensures Applied(s)
    {
      ClearBoxes();
      RebuildBoxes(s);
    }

    /** The first half of this history's `applyState`: remove every registered box from the scene and empty `collisionBoxes`. */
    method ClearBoxes()
      modifies menuManager, scene
      ensures scene.objects == old(scene.objects) - old(BoxObjects(menuManager.collisionBoxes))
      ensures menuManager.collisionBoxes == []
      ensures menuManager.lights == old(menuManager.lights) && menuManager.furniture == old(menuManager.furniture)
      ensures menuManager.WiringUnchanged() && menuManager.PreviewUnchanged()
    {
      RemoveBoxes(scene, menuManager.collisionBoxes);
      menuManager.collisionBoxes := [];
    }

    /** Every box the collision entries `0 .. k-1` of `s` name carries the transform of the last entry naming it. */
    ghost predicate BoxPosesAt(s: Snapshot, k: int)
      requires 0 <= k <= |s|
      reads BoxTransforms(s)
    {
      forall i | 0 <= i < k && s[i].CollisionItem? && LastBefore(s, i, k) :: s[i].collisionBox.CurrentPose() == s[i].pose
    }

    /** The collision entries `0 .. k-1` of `s` have been applied on top of the scene objects `base`. */
    ghost predicate BoxesRebuiltUpTo(s: Snapshot, k: int, base: set<Obj>)
      requires 0 <= k <= |s|
      reads menuManager, scene, BoxTransforms(s)
    {
      && menuManager.collisionBoxes == CollisionsIn(s[..k])
      && scene.objects == base + BoxObjects(menuManager.collisionBoxes)
      && BoxPosesAt(s, k)
    }

    /** The second half of this history's `applyState`: one pass over `s`, skipping entries that are not collision entries. */
    method RebuildBoxes(s: Snapshot)
      requires menuManager.collisionBoxes == []
      modifies menuManager, scene, BoxTransforms(s)
      ensures menuManager.collisionBoxes == CollisionsIn(s)
      ensures menuManager.lights == old(menuManager.lights) && menuManager.furniture == old(menuManager.furniture)
      ensures scene.objects == old(scene.objects) + BoxObjects(menuManager.collisionBoxes)
      ensures forall i | 0 <= i < |s| && s[i].CollisionItem? && LastFor(s, i) :: s[i].collisionBox.CurrentPose() == s[i].pose
      ensures menuManager.WiringUnchanged() && menuManager.PreviewUnchanged()
    {
      ghost var base := scene.objects;
      assert s[..0] == [];
      for k := 0 to |s|
        invariant BoxesRebuiltUpTo(s, k, base)
        invariant menuManager.lights == old(menuManager.lights) && menuManager.furniture == old(menuManager.furniture)
        invariant menuManager.WiringUnchanged() && menuManager.PreviewUnchanged()
      {
        RestoreBox(s, k, base);
      }
      assert s[..|s|] == s;
    }

    /** The body of this history's `applyState` loop for entry `k` of `s`. */
    method RestoreBox(s: Snapshot, k: int, ghost base: set<Obj>)
      requires 0 <= k < |s| && BoxesRebuiltUpTo(s, k, base)
      modifies menuManager, scene, if s[k].CollisionItem? then {s[k].collisionBox.transform} else {}
      ensures BoxesRebuiltUpTo(s, k + 1, base)
      ensures menuManager.lights == old(menuManager.lights) && menuManager.furniture == old(menuManager.furniture)
      ensures menuManager.WiringUnchanged() && menuManager.PreviewUnchanged()
    {
      PrefixStep(s, k);
      if s[k].CollisionItem? {
        CopyBoxPose(s, k);
        var box := s[k].collisionBox;
        scene.Add(box);
        menuManager.collisionBoxes := menuManager.collisionBoxes + [CollisionSetup(box, s[k].width, s[k].height, s[k].depth)];
      } else {
        BoxPosesSkip(s, k);
      }
    }

    /** The transform part of the loop for collision entry `k`: only that box's transform changes, which extends BoxPosesAt from `k` to `k + 1`. */
    method CopyBoxPose(s: Snapshot, k: int)
      requires 0 <= k < |s| && s[k].CollisionItem? && BoxPosesAt(s, k)
      modifies s[k].collisionBox.transform
      ensures s[k].collisionBox.CurrentPose() == s[k].pose
      ensures BoxPosesAt(s, k + 1)
    {
      s[k].collisionBox.transform.Copy(s[k].pose);
    }

    /** An entry that is not a collision entry leaves BoxPosesAt true one index further. */
    lemma BoxPosesSkip(s: Snapshot, k: int)
      requires 0 <= k < |s| && !s[k].CollisionItem? && BoxPosesAt(s, k)
      ensures BoxPosesAt(s, k + 1)
    {
    }
  }
}
