/**
 * The entries of the menu manager's three registries (`lights`,
 * `furniture`, `collisionBoxes`), the identity searches the Delete handlers
 * run over them (`findIndex` by reference), and the sets of scene objects
 * that an entry puts into the scene.
 */
module Registry {
  import opened SceneGraph

  /**
   * A light, the helper drawn for it and, for a spot light, the target
   * object it points at (`createSpotLight` returns `{ light, helper, target }`).
   */
  datatype LightSetup = LightSetup(light: Obj, helper: Obj, target: Option<Obj>)

  /** The entries as `applyState` rebuilds them: `{ light, helper }` with no target. */
  function WithoutTargets(lights: seq<LightSetup>): (r: seq<LightSetup>)
    ensures |r| == |lights|
    ensures forall i :: 0 <= i < |lights| ==> r[i] == LightSetup(lights[i].light, lights[i].helper, None)
  {
    if lights == [] then []
    else [LightSetup(lights[0].light, lights[0].helper, None)] + WithoutTargets(lights[1..])
  }

  /** `{ helper }`: the helper group that carries a furniture model and its wireframe sphere. */
  datatype FurnitureSetup = FurnitureSetup(helper: Obj)

  /** `{ collisionBox, width, height, depth }` */
  datatype CollisionSetup = CollisionSetup(collisionBox: Obj, width: real, height: real, depth: real)

  /** `lights.findIndex(l => l.light === o)` */
  function FindLight(lights: seq<LightSetup>, o: Obj): (i: int)
    ensures -1 <= i < |lights|
    ensures 0 <= i ==> lights[i].light == o && forall j :: 0 <= j < i ==> lights[j].light != o
    ensures i == -1 <==> forall j :: 0 <= j < |lights| ==> lights[j].light != o
  {
    if lights == [] then -1
    else if lights[0].light == o then 0
    else
      var k := FindLight(lights[1..], o);
      if k == -1 then -1 else k + 1
  }

  /** `furniture.findIndex(f => f.helper === o)` */
  function FindFurniture(furniture: seq<FurnitureSetup>, o: Obj): (i: int)
    ensures -1 <= i < |furniture|
    ensures 0 <= i ==> furniture[i].helper == o && forall j :: 0 <= j < i ==> furniture[j].helper != o
    ensures i == -1 <==> forall j :: 0 <= j < |furniture| ==> furniture[j].helper != o
  {
    if furniture == [] then -1
    else if furniture[0].helper == o then 0
    else
      var k := FindFurniture(furniture[1..], o);
      if k == -1 then -1 else k + 1
  }

  /** `collisionBoxes.findIndex(box => box.collisionBox === o)` */
  function FindBox(boxes: seq<CollisionSetup>, o: Obj): (i: int)
    ensures -1 <= i < |boxes|
    ensures 0 <= i ==> boxes[i].collisionBox == o && forall j :: 0 <= j < i ==> boxes[j].collisionBox != o
    ensures i == -1 <==> forall j :: 0 <= j < |boxes| ==> boxes[j].collisionBox != o
  {
    if boxes == [] then -1
    else if boxes[0].collisionBox == o then 0
    else
      var k := FindBox(boxes[1..], o);
      if k == -1 then -1 else k + 1
  }

  /** `splice(i, 1)` at an index `findIndex` returned, or nothing when it returned -1. */
  function RemoveAt<T>(s: seq<T>, i: int): (r: seq<T>)
    requires -1 <= i < |s|
    ensures i == -1 ==> r == s
    ensures 0 <= i ==> |r| == |s| - 1
    ensures 0 <= i ==> forall j :: 0 <= j < i ==> r[j] == s[j]
    ensures 0 <= i ==> forall j :: i <= j < |r| ==> r[j] == s[j + 1]
  {
    if i == -1 then s else s[..i] + s[i + 1..]
  }

  /** The objects the light entries put into the scene: each light and its helper. */
  function LightObjects(lights: seq<LightSetup>): (r: set<Obj>)
    ensures forall j :: 0 <= j < |lights| ==> lights[j].light in r
    ensures forall j :: 0 <= j < |lights| ==> lights[j].helper in r
  {
    if lights == [] then {}
    else LightObjects(lights[..|lights| - 1]) + {lights[|lights| - 1].light, lights[|lights| - 1].helper}
  }

  /** Nothing but the lights and helpers of the entries is in LightObjects. */
  lemma {:induction false} LightObjectsOnly(lights: seq<LightSetup>, o: Obj)
    requires o in LightObjects(lights)
    ensures exists j :: 0 <= j < |lights| && (o == lights[j].light || o == lights[j].helper)
  {
    var init := lights[..|lights| - 1];
    if o in LightObjects(init) {
      LightObjectsOnly(init, o);
      var j :| 0 <= j < |init| && (o == init[j].light || o == init[j].helper);
      assert init[j] == lights[j];
    } else {
      assert o == lights[|lights| - 1].light || o == lights[|lights| - 1].helper;
    }
  }

  /** The objects the furniture entries put into the scene: each helper group. */
  function FurnitureObjects(furniture: seq<FurnitureSetup>): (r: set<Obj>)
    ensures forall j :: 0 <= j < |furniture| ==> furniture[j].helper in r
    ensures forall o :: o in r ==> exists j :: 0 <= j < |furniture| && o == furniture[j].helper
  {
    if furniture == [] then {}
    else FurnitureObjects(furniture[..|furniture| - 1]) + {furniture[|furniture| - 1].helper}
  }

  /** The objects the collision entries put into the scene: each box mesh. */
  function BoxObjects(boxes: seq<CollisionSetup>): (r: set<Obj>)
    ensures forall j :: 0 <= j < |boxes| ==> boxes[j].collisionBox in r
    ensures forall o :: o in r ==> exists j :: 0 <= j < |boxes| && o == boxes[j].collisionBox
  {
    if boxes == [] then {}
    else BoxObjects(boxes[..|boxes| - 1]) + {boxes[|boxes| - 1].collisionBox}
  }

  /** The lights themselves, in registry order. */
  function Lights(lights: seq<LightSetup>): (r: seq<Obj>)
    ensures |r| == |lights|
    ensures forall i :: 0 <= i < |lights| ==> r[i] == lights[i].light
  {
    if lights == [] then [] else [lights[0].light] + Lights(lights[1..])
  }

  /** The light helpers, in registry order. */
  function LightHelpers(lights: seq<LightSetup>): (r: seq<Obj>)
    ensures |r| == |lights|
    ensures forall i :: 0 <= i < |lights| ==> r[i] == lights[i].helper
  {
    if lights == [] then [] else [lights[0].helper] + LightHelpers(lights[1..])
  }

  /** The furniture helper groups, in registry order. */
  function Groups(furniture: seq<FurnitureSetup>): (r: seq<Obj>)
    ensures |r| == |furniture|
    ensures forall i :: 0 <= i < |furniture| ==> r[i] == furniture[i].helper
  {
    if furniture == [] then [] else [furniture[0].helper] + Groups(furniture[1..])
  }

  /** The collision box meshes, in registry order. */
  function BoxMeshes(boxes: seq<CollisionSetup>): (r: seq<Obj>)
    ensures |r| == |boxes|
    ensures forall i :: 0 <= i < |boxes| ==> r[i] == boxes[i].collisionBox
  {
    if boxes == [] then [] else [boxes[0].collisionBox] + BoxMeshes(boxes[1..])
  }
}
