/**
 * The keyboard handlers of `setupModelInteraction` and
 * `setupCollisionInteraction`.  Each is a closure over the scene, the menu
 * manager, its own history object and its own transform controls; here
 * each becomes a class whose constants are those objects.
 */
module Interaction {
  import opened SceneGraph
  import opened Registry
  import opened Keys
  import opened Editor
  import HistoryStacks

  /** What the scene-history `handleKeyDown` closes over. */
  class ModelInteraction {
    const scene: Scene
    const menuManager: MenuManager
    const history: SceneHistory
    const transformControls: TransformControls

    /** The history works on the same scene and menu manager as the handler. */
    predicate Wired()
    {
      history.scene == scene && history.menuManager == menuManager
    }

    constructor (history: SceneHistory, transformControls: TransformControls)
      ensures this.history == history && this.transformControls == transformControls
      ensures Wired()
    {
      scene := history.scene;
      menuManager := history.menuManager;
      this.history := history;
      this.transformControls := transformControls;
    }

    /**
     * What deleting the selected object `o` does to the registries and the
     * scene: a light is looked up among the lights only; any other object
     * flagged selectable among the collision boxes and, when no box
     * matches, among the furniture; the first matching entry is spliced
     * out and its objects leave the scene.  An object that is neither
     * changes nothing.
     */
    twostate predicate Deleted(o: Obj)
      reads menuManager, scene
    {
      var L, F, C := old(menuManager.lights), old(menuManager.furniture), old(menuManager.collisionBoxes);
      var i, b, f := FindLight(L, o), FindBox(C, o), FindFurniture(F, o);
      if o.isLight then
        && menuManager.lights == RemoveAt(L, i)
        && menuManager.furniture == F && menuManager.collisionBoxes == C
        && scene.objects == old(scene.objects) - (if i == -1 then {} else {L[i].light, L[i].helper})
      else if o.isSelectable then
        && menuManager.lights == L
        && menuManager.collisionBoxes == RemoveAt(C, b)
        && menuManager.furniture == (if b == -1 then RemoveAt(F, f) else F)
        && scene.objects == old(scene.objects) - (if b != -1 then {C[b].collisionBox} else if f != -1 then {F[f].helper} else {})
      else
        && menuManager.lights == L && menuManager.furniture == F && menuManager.collisionBoxes == C
        && scene.objects == old(scene.objects)
    }

    /** The lookup-and-splice part of the delete branch, for the selected object `o`. */
    method DeleteSelected(o: Obj)
      modifies menuManager, scene
      ensures Deleted(o)
      ensures menuManager.WiringUnchanged() && menuManager.PreviewUnchanged()
    {
      if o.isLight {
        var i := FindLight(menuManager.lights, o);
        if i != -1 {
          scene.Remove(menuManager.lights[i].light);
          scene.Remove(menuManager.lights[i].helper);
          menuManager.lights := RemoveAt(menuManager.lights, i);
        }
      } else if o.isSelectable {
        var b := FindBox(menuManager.collisionBoxes, o);
        if b != -1 {
          scene.Remove(menuManager.collisionBoxes[b].collisionBox);
          menuManager.collisionBoxes := RemoveAt(menuManager.collisionBoxes, b);
        } else {
          var f := FindFurniture(menuManager.furniture, o);
          if f != -1 {
            scene.Remove(menuManager.furniture[f].helper);
            menuManager.furniture := RemoveAt(menuManager.furniture, f);
          }
        }
      }
    }

    /**
     * `handleKeyDown(event)`: Ctrl+Z undoes and Ctrl+Y or Ctrl+Shift+Z
     * redoes; Delete or Backspace, when an object is attached to the
     * transform controls, deletes it, detaches the controls and pushes the
     * history, whether or not an entry matched.  Any other key, and Delete
     * with nothing selected, changes nothing.
     */
    method HandleKeyDown(e: KeyEvent)
      requires Wired()
      modifies history, menuManager, scene, transformControls, history.UndoTransforms(), history.RedoTransforms()
      ensures IsUndoKey(e) ==> history.State() == HistoryStacks.Undo(old(history.State()))
      ensures IsUndoKey(e) && |old(history.past)| == 0 ==> unchanged(menuManager, scene)
      ensures IsUndoKey(e) && |old(history.past)| > 0 ==> history.Applied(history.present)
      ensures IsRedoKey(e) ==> history.State() == HistoryStacks.Redo(old(history.State()))
      ensures IsRedoKey(e) && |old(history.future)| == 0 ==> unchanged(menuManager, scene)
      ensures IsRedoKey(e) && |old(history.future)| > 0 ==> history.Applied(history.present)
      ensures menuManager.WiringUnchanged() && menuManager.PreviewUnchanged()
      ensures IsUndoKey(e) || IsRedoKey(e) ==> unchanged(transformControls)
      // of the transforms either stack top names, only those of the entry undone or redone move
      ensures forall t | t in old(history.UndoTransforms() + history.RedoTransforms()) && old(allocated(t))
                           && !(IsUndoKey(e) && t in old(history.UndoTransforms()))
                           && !(IsRedoKey(e) && t in old(history.RedoTransforms())) :: t.Current() == old(t.Current())
      ensures IsDeleteKey(e) && old(transformControls.attached) != null ==>
                && Deleted(old(transformControls.attached))
                && transformControls.attached == null
                && history.State() == HistoryStacks.Push(old(history.State()), menuManager.SceneSnapshot(), history.maxHistoryPoints)
      ensures IsDeleteKey(e) && old(transformControls.attached) == null ==> unchanged(history, menuManager, scene, transformControls)
      ensures Classify(e) == NoShortcut ==> unchanged(history, menuManager, scene, transformControls)
    {
      if IsUndoKey(e) {
        history.Undo();
      }
      if IsRedoKey(e) {
        history.Redo();
      }
      if IsDeleteKey(e) {
        var selected := transformControls.attached;
        if selected != null {
          DeleteSelected(selected);
          transformControls.Detach();
          history.Push();
        }
      }
    }
  }

  /** What the collision-history `handleKeyDown` closes over. */
  class CollisionInteraction {
    const scene: Scene
    const menuManager: MenuManager
    const history: CollisionHistory
    const transformControls: TransformControls

    /** The history works on the same scene and menu manager as the handler. */
    predicate Wired()
    {
      history.scene == scene && history.menuManager == menuManager
    }

    constructor (history: CollisionHistory, transformControls: TransformControls)
      ensures this.history == history && this.transformControls == transformControls
      ensures Wired()
    {
      scene := history.scene;
      menuManager := history.menuManager;
      this.history := history;
      this.transformControls := transformControls;
    }

    /**
     * What deleting the selected object `o` does: it is looked up among
     * the collision boxes whatever its flags, the first matching entry is
     * spliced out and its box leaves the scene; the other registries are
     * untouched.
     */
    twostate predicate BoxDeleted(o: Obj)
      reads menuManager, scene
    {
      var C := old(menuManager.collisionBoxes);
      var b := FindBox(C, o);
      && menuManager.collisionBoxes == RemoveAt(C, b)
      && menuManager.lights == old(menuManager.lights) && menuManager.furniture == old(menuManager.furniture)
      && scene.objects == old(scene.objects) - (if b == -1 then {} else {C[b].collisionBox})
    }

    /** The lookup-and-splice part of the delete branch, for the selected object `o`. */
    method DeleteSelected(o: Obj)
      modifies menuManager, scene
      ensures BoxDeleted(o)
      ensures menuManager.WiringUnchanged() && menuManager.PreviewUnchanged()
    {
      var b := FindBox(menuManager.collisionBoxes, o);
      if b != -1 {
        scene.Remove(menuManager.collisionBoxes[b].collisionBox);
        menuManager.collisionBoxes := RemoveAt(menuManager.collisionBoxes, b);
      }
    }

    /**
     * `handleKeyDown(event)` of the collision interaction: the same keys,
     * on the collision history; Delete with an object selected removes the
     * matching box, if any, detaches the controls and pushes.
     */
    method HandleKeyDown(e: KeyEvent)
      requires Wired()
      modifies history, menuManager, scene, transformControls, history.UndoTransforms(), history.RedoTransforms()
      ensures IsUndoKey(e) ==> history.State() == HistoryStacks.Undo(old(history.State()))
      ensures IsUndoKey(e) && |old(history.past)| == 0 ==> unchanged(menuManager, scene)
      ensures IsUndoKey(e) && |old(history.past)| > 0 ==> history.Applied(history.present)
      ensures IsRedoKey(e) ==> history.State() == HistoryStacks.Redo(old(history.State()))
      ensures IsRedoKey(e) && |old(history.future)| == 0 ==> unchanged(menuManager, scene)
      ensures IsRedoKey(e) && |old(history.future)| > 0 ==> history.Applied(history.present)
      ensures menuManager.WiringUnchanged() && menuManager.PreviewUnchanged()
      ensures IsUndoKey(e) || IsRedoKey(e) ==> unchanged(transformControls)
      // of the transforms either stack top names, only those of the entry undone or redone move
      ensures forall t | t in old(history.UndoTransforms() + history.RedoTransforms()) && old(allocated(t))
                           && !(IsUndoKey(e) && t in old(history.UndoTransforms()))
                           && !(IsRedoKey(e) && t in old(history.RedoTransforms())) :: t.Current() == old(t.Current())
      ensures IsDeleteKey(e) && old(transformControls.attached) != null ==>
                && BoxDeleted(old(transformControls.attached))
                && transformControls.attached == null
                && history.State() == HistoryStacks.Push(old(history.State()), menuManager.CollisionSnapshot(), history.maxHistoryPoints)
      ensures IsDeleteKey(e) && old(transformControls.attached) == null ==> unchanged(history, menuManager, scene, transformControls)
      ensures Classify(e) == NoShortcut ==> unchanged(history, menuManager, scene, transformControls)
    {
      if IsUndoKey(e) {
        history.Undo();
      }
      if IsRedoKey(e) {
        history.Redo();
      }
      if IsDeleteKey(e) {
        var selected := transformControls.attached;
        if selected != null {
          DeleteSelected(selected);
          transformControls.Detach();
          history.Push();
        }
      }
    }
  }
}
