/**
 * The parts of the rendering library's scene graph that the editor's history
 * touches: a 3D object with a transform (position, rotation, scale), a
 * visibility flag and children, and the scene that objects are added to and
 * removed from.
 *
 * Transforms are never computed by the editor, only cloned and copied, so
 * their components are plain values here.
 */
module SceneGraph {

  datatype Option<T> = None | Some(value: T)

  /** A 3-component vector (also used for Euler rotation angles). */
  datatype Vec3 = Vec3(x: real, y: real, z: real)

  const Origin: Vec3 := Vec3(0.0, 0.0, 0.0)
  const UnitScale: Vec3 := Vec3(1.0, 1.0, 1.0)

  /** A copied transform: what `position.clone()`, `rotation.clone()` and `scale.clone()` capture. */
  datatype Pose = Pose(position: Vec3, rotation: Vec3, scale: Vec3)

  /**
   * The transform an object owns: three.js keeps `position`, `rotation` and
   * `scale` as component objects of the object that `copy` overwrites in
   * place, so restoring a transform touches these and nothing else of the
   * object.
   */
  class Transform {
    var position: Vec3
    var rotation: Vec3
    var scale: Vec3

    constructor (position: Vec3)
      ensures this.position == position && rotation == Origin && scale == UnitScale
    {
      this.position := position;
      rotation := Origin;
      scale := UnitScale;
    }

    /** The current transform, as a value. */
    function Current(): Pose
      reads this
    {
      Pose(position, rotation, scale)
    }

    /** `position.copy(p.position); rotation.copy(p.rotation); scale.copy(p.scale)` */
    method Copy(p: Pose)
      modifies this
      ensures Current() == p
    {
      position := p.position;
      rotation := p.rotation;
      scale := p.scale;
    }
  }

  /**
   * A scene-graph object (light, light helper, furniture helper group,
   * helper sphere, collision box mesh).  The flags that the editor tests
   * (`isLight`, `userData.isSelectable`, "is a mesh with a sphere geometry")
   * are fixed when the object is created.  The children are fixed here
   * too: a furniture group gets its helper sphere when it is built and the
   * loaded model later, after the sphere, so the first sphere child, the
   * only child the editor looks for, never changes.
   */
  class Obj {
    const transform: Transform
    var visible: bool
    const children: seq<Obj>
    const isLight: bool
    const isSelectable: bool
    const isHelperSphere: bool

    constructor (position: Vec3, children: seq<Obj>, isLight: bool, isSelectable: bool, isHelperSphere: bool)
      ensures fresh(transform) && transform.Current() == Pose(position, Origin, UnitScale)
      ensures visible && this.children == children
      ensures this.isLight == isLight && this.isSelectable == isSelectable
      ensures this.isHelperSphere == isHelperSphere
    {
      transform := new Transform(position);
      visible := true;
      this.children := children;
      this.isLight := isLight;
      this.isSelectable := isSelectable;
      this.isHelperSphere := isHelperSphere;
    }

    /** The object's current transform, as a value. */
    function CurrentPose(): Pose
      reads transform
    {
      transform.Current()
    }
  }

  /**
   * The first child that is a mesh with a sphere geometry, as
   * `children.find(child => child.isMesh && child.geometry instanceof SphereGeometry)`.
   */
  function FirstSphere(children: seq<Obj>): (r: Option<Obj>)
    ensures r.Some? ==> r.value.isHelperSphere
    ensures r.Some? ==> exists i :: 0 <= i < |children| && children[i] == r.value &&
                                   forall j :: 0 <= j < i ==> !children[j].isHelperSphere
    ensures r.None? <==> forall i :: 0 <= i < |children| ==> !children[i].isHelperSphere
  {
    if children == [] then None
    else if children[0].isHelperSphere then Some(children[0])
    else FirstSphere(children[1..])
  }

  /**
   * The scene: the set of objects currently added to it.  The library's
   * `add` detaches an object from any earlier parent and `remove` ignores
   * objects that are not children, so both act as set operations.
   */
  class Scene {
    var objects: set<Obj>

    constructor ()
      ensures objects == {}
    {
      objects := {};
    }

    method Add(o: Obj)
      modifies this
      ensures objects == old(objects) + {o}
    {
      objects := objects + {o};
    }

    method Remove(o: Obj)
      modifies this
      ensures objects == old(objects) - {o}
    {
      objects := objects - {o};
    }
  }
}
