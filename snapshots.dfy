/**
 * Snapshots of the editor's registries, as `saveState` captures them and
 * `applyState` reads them back.  A snapshot is a value: it holds copies of
 * the transforms and references to the scene objects, so later edits of an
 * object never change a snapshot already taken.
 */
module Snapshots {
  import opened SceneGraph
  import opened Registry

  /** One snapshot entry, tagged by `type`. */
  datatype Item =
    | LightItem(pose: Pose, light: Obj, helper: Obj)
    | FurnitureItem(pose: Pose, helper: Obj)
    | CollisionItem(pose: Pose, collisionBox: Obj, width: real, height: real, depth: real)
  {
    /** The object whose transform the entry recorded and `applyState` copies back. */
    function Target(): Obj
    {
      match this
      case LightItem(_, light, _) => light
      case FurnitureItem(_, helper) => helper
      case CollisionItem(_, box, _, _, _) => box
    }
  }

  type Snapshot = seq<Item>

  /** The transforms of the objects the entries of `s` name: everything `applyState(s)` writes to besides the scene and the registries. */
  function Transforms(s: Snapshot): (r: set<Transform>)
    ensures forall i :: 0 <= i < |s| ==> s[i].Target().transform in r
  {
    if s == [] then {} else Transforms(s[..|s| - 1]) + {s[|s| - 1].Target().transform}
  }

  /** The transforms of the box meshes the collision entries of `s` name. */
  function BoxTransforms(s: Snapshot): (r: set<Transform>)
    ensures forall i :: 0 <= i < |s| && s[i].CollisionItem? ==> s[i].collisionBox.transform in r
  {
    if s == [] then {}
    else BoxTransforms(s[..|s| - 1]) + (if s[|s| - 1].CollisionItem? then {s[|s| - 1].collisionBox.transform} else {})
  }

  /**
   * No entry of `s` after entry `i` and before index `k` restores the same
   * transform (objects never share one: each is created with its own).
   */
  predicate LastBefore(s: Snapshot, i: int, k: int)
    requires 0 <= i < k <= |s|
    decreases k
  {
    k == i + 1 || (s[k - 1].Target().transform != s[i].Target().transform && LastBefore(s, i, k - 1))
  }

  /** LastBefore, stated outright. */
  lemma {:induction false} LastBeforeMeans(s: Snapshot, i: int, k: int)
    requires 0 <= i < k <= |s|
    ensures LastBefore(s, i, k) <==> forall j :: i < j < k ==> s[j].Target().transform != s[i].Target().transform
    decreases k
  {
    if k > i + 1 {
      LastBeforeMeans(s, i, k - 1);
    }
  }

  /**
   * No later entry of `s` restores the transform of the object of entry
   * `i`, so entry `i` decides that object's final transform.  In a snapshot
   * `saveState` took from registries whose objects each have their own
   * transform, every entry is last for its object (SaveStateAllLast,
   * CollisionStateAllLast).
   */
  predicate LastFor(s: Snapshot, i: int)
    requires 0 <= i < |s|
  {
    LastBefore(s, i, |s|)
  }

  /** The light part of `saveState`: one entry per light, in registry order, with the light's current transform. */
  function LightsState(lights: seq<LightSetup>): (r: Snapshot)
    reads set e | e in lights :: e.light.transform
    ensures |r| == |lights|
    ensures forall i :: 0 <= i < |lights| ==>
              r[i] == LightItem(lights[i].light.CurrentPose(), lights[i].light, lights[i].helper)
  {
    if lights == [] then []
    else [LightItem(lights[0].light.CurrentPose(), lights[0].light, lights[0].helper)] + LightsState(lights[1..])
  }

  /** The furniture part of `saveState`: one entry per furniture helper, with the helper's current transform. */
  function FurnitureState(furniture: seq<FurnitureSetup>): (r: Snapshot)
    reads set e | e in furniture :: e.helper.transform
    ensures |r| == |furniture|
    ensures forall i :: 0 <= i < |furniture| ==>
              r[i] == FurnitureItem(furniture[i].helper.CurrentPose(), furniture[i].helper)
  {
    if furniture == [] then []
    else [FurnitureItem(furniture[0].helper.CurrentPose(), furniture[0].helper)] + FurnitureState(furniture[1..])
  }

  /** The collision part of `saveState` (and all of the collision history's `saveState`): one entry per box, with its dimensions. */
  function CollisionState(boxes: seq<CollisionSetup>): (r: Snapshot)
    reads set e | e in boxes :: e.collisionBox.transform
    ensures |r| == |boxes|
    ensures forall i :: 0 <= i < |boxes| ==>
              r[i] == CollisionItem(boxes[i].collisionBox.CurrentPose(), boxes[i].collisionBox,
                                    boxes[i].width, boxes[i].height, boxes[i].depth)
  {
    if boxes == [] then []
    else
      [CollisionItem(boxes[0].collisionBox.CurrentPose(), boxes[0].collisionBox,
                     boxes[0].width, boxes[0].height, boxes[0].depth)] + CollisionState(boxes[1..])
  }

  /** The scene history's `saveState`: lights, then furniture, then collision boxes. */
  function SaveState(lights: seq<LightSetup>, furniture: seq<FurnitureSetup>, boxes: seq<CollisionSetup>): Snapshot
    reads (set e | e in lights :: e.light.transform), (set e | e in furniture :: e.helper.transform),
          (set e | e in boxes :: e.collisionBox.transform)
  {
    LightsState(lights) + FurnitureState(furniture) + CollisionState(boxes)
  }

  /** The registry entry `applyState` pushes for one snapshot entry, per registry. */
  function LightOf(item: Item): seq<LightSetup>
  {
    if item.LightItem? then [LightSetup(item.light, item.helper, None)] else []
  }

  function FurnitureOf(item: Item): seq<FurnitureSetup>
  {
    if item.FurnitureItem? then [FurnitureSetup(item.helper)] else []
  }

  function CollisionOf(item: Item): seq<CollisionSetup>
  {
    if item.CollisionItem? then [CollisionSetup(item.collisionBox, item.width, item.height, item.depth)] else []
  }

  /** The light registry `applyState` rebuilds from `s`: one `{ light, helper }` per light entry, in snapshot order. */
  function LightsIn(s: Snapshot): (r: seq<LightSetup>)
    ensures |r| <= |s|
  {
    if s == [] then [] else LightsIn(s[..|s| - 1]) + LightOf(s[|s| - 1])
  }

  /** The furniture registry `applyState` rebuilds from `s`. */
  function FurnitureIn(s: Snapshot): (r: seq<FurnitureSetup>)
    ensures |r| <= |s|
  {
    if s == [] then [] else FurnitureIn(s[..|s| - 1]) + FurnitureOf(s[|s| - 1])
  }

  /** The collision registry `applyState` rebuilds from `s` (both histories). */
  function CollisionsIn(s: Snapshot): (r: seq<CollisionSetup>)
    ensures |r| <= |s|
  {
    if s == [] then [] else CollisionsIn(s[..|s| - 1]) + CollisionOf(s[|s| - 1])
  }

  /** Rebuilding the first `k + 1` entries extends each registry by entry `k`'s part. */
  lemma PrefixStep(s: Snapshot, k: int)
    requires 0 <= k < |s|
    ensures LightsIn(s[..k + 1]) == LightsIn(s[..k]) + LightOf(s[k])
    ensures FurnitureIn(s[..k + 1]) == FurnitureIn(s[..k]) + FurnitureOf(s[k])
    ensures CollisionsIn(s[..k + 1]) == CollisionsIn(s[..k]) + CollisionOf(s[k])
  {
    assert s[..k + 1][..k] == s[..k] && s[..k + 1][k] == s[k];
  }

  /** The last entry of `a + b` and what precedes it, for a non-empty `b`. */
  lemma SplitLast(a: Snapshot, b: Snapshot)
    requires b != []
    ensures (a + b)[..|a + b| - 1] == a + b[..|b| - 1]
    ensures (a + b)[|a + b| - 1] == b[|b| - 1]
  {
  }

  /** The objects `applyState` adds to the scene for one snapshot entry. */
  function ItemObjects(item: Item): set<Obj>
  {
    match item
    case LightItem(_, light, helper) => {light, helper}
    case FurnitureItem(_, helper) => {helper}
    case CollisionItem(_, box, _, _, _) => {box}
  }

  /** Registering the entry rebuilt from `item` registers exactly the objects of `item`. */
  lemma RegisterItem(lights: seq<LightSetup>, furniture: seq<FurnitureSetup>, boxes: seq<CollisionSetup>, item: Item)
    ensures LightObjects(lights + LightOf(item)) + FurnitureObjects(furniture + FurnitureOf(item)) + BoxObjects(boxes + CollisionOf(item))
         == LightObjects(lights) + FurnitureObjects(furniture) + BoxObjects(boxes) + ItemObjects(item)
  {
    match item
    case LightItem(_, light, helper) =>
      assert (lights + LightOf(item))[..|lights|] == lights;
      assert furniture + FurnitureOf(item) == furniture && boxes + CollisionOf(item) == boxes;
    case FurnitureItem(_, helper) =>
      assert (furniture + FurnitureOf(item))[..|furniture|] == furniture;
      assert lights + LightOf(item) == lights && boxes + CollisionOf(item) == boxes;
    case CollisionItem(_, box, _, _, _) =>
      assert (boxes + CollisionOf(item))[..|boxes|] == boxes;
      assert lights + LightOf(item) == lights && furniture + FurnitureOf(item) == furniture;
  }

  /** Rebuilding from two concatenated snapshots rebuilds from each in turn. */
  lemma {:induction false} LightsAppend(a: Snapshot, b: Snapshot)
    ensures LightsIn(a + b) == LightsIn(a) + LightsIn(b)
    decreases |b|
  {
    if b == [] {
      assert a + b == a;
    } else {
      SplitLast(a, b);
      LightsAppend(a, b[..|b| - 1]);
    }
  }

  lemma {:induction false} FurnitureAppend(a: Snapshot, b: Snapshot)
    ensures FurnitureIn(a + b) == FurnitureIn(a) + FurnitureIn(b)
    decreases |b|
  {
    if b == [] {
      assert a + b == a;
    } else {
      SplitLast(a, b);
      FurnitureAppend(a, b[..|b| - 1]);
    }
  }

  lemma {:induction false} CollisionsAppend(a: Snapshot, b: Snapshot)
    ensures CollisionsIn(a + b) == CollisionsIn(a) + CollisionsIn(b)
    decreases |b|
  {
    if b == [] {
      assert a + b == a;
    } else {
      SplitLast(a, b);
      CollisionsAppend(a, b[..|b| - 1]);
    }
  }

  /** A one-entry snapshot rebuilds just that entry. */
  lemma Single(item: Item)
    ensures LightsIn([item]) == LightOf(item)
    ensures FurnitureIn([item]) == FurnitureOf(item)
    ensures CollisionsIn([item]) == CollisionOf(item)
  {
    assert [item][..0] == [];
  }

  /**
   * The light entries of a snapshot rebuild exactly the lights they were
   * captured from, in order, and nothing else; only a spot light's target
   * reference is not carried over.
   */
  lemma {:induction false} LightsRoundTrip(lights: seq<LightSetup>)
    ensures LightsIn(LightsState(lights)) == WithoutTargets(lights)
    ensures FurnitureIn(LightsState(lights)) == [] && CollisionsIn(LightsState(lights)) == []
  {
    if lights != [] {
      var s := LightsState(lights);
      var rest := LightsState(lights[1..]);
      assert s == [s[0]] + rest;
      LightsAppend([s[0]], rest);
      FurnitureAppend([s[0]], rest);
      CollisionsAppend([s[0]], rest);
      Single(s[0]);
      LightsRoundTrip(lights[1..]);
      assert WithoutTargets(lights) == [LightSetup(lights[0].light, lights[0].helper, None)] + WithoutTargets(lights[1..]);
    }
  }

  /** The furniture entries of a snapshot rebuild exactly the furniture they were captured from, and nothing else. */
  lemma {:induction false} FurnitureRoundTrip(furniture: seq<FurnitureSetup>)
    ensures FurnitureIn(FurnitureState(furniture)) == furniture
    ensures LightsIn(FurnitureState(furniture)) == [] && CollisionsIn(FurnitureState(furniture)) == []
  {
    if furniture != [] {
      var s := FurnitureState(furniture);
      var rest := FurnitureState(furniture[1..]);
      assert s == [s[0]] + rest;
      LightsAppend([s[0]], rest);
      FurnitureAppend([s[0]], rest);
      CollisionsAppend([s[0]], rest);
      Single(s[0]);
      FurnitureRoundTrip(furniture[1..]);
      assert [furniture[0]] + furniture[1..] == furniture;
    }
  }

  /** The collision entries of a snapshot rebuild exactly the boxes they were captured from, dimensions included. */
  lemma {:induction false} CollisionRoundTrip(boxes: seq<CollisionSetup>)
    ensures CollisionsIn(CollisionState(boxes)) == boxes
    ensures LightsIn(CollisionState(boxes)) == [] && FurnitureIn(CollisionState(boxes)) == []
  {
    if boxes != [] {
      var s := CollisionState(boxes);
      var rest := CollisionState(boxes[1..]);
      assert s == [s[0]] + rest;
      LightsAppend([s[0]], rest);
      FurnitureAppend([s[0]], rest);
      CollisionsAppend([s[0]], rest);
      Single(s[0]);
      CollisionRoundTrip(boxes[1..]);
      assert [boxes[0]] + boxes[1..] == boxes;
    }
  }

  /** Rebuilding from three concatenated snapshots rebuilds from each in turn. */
  lemma RebuildThree(l: Snapshot, f: Snapshot, c: Snapshot)
    ensures LightsIn(l + f + c) == LightsIn(l) + LightsIn(f) + LightsIn(c)
    ensures FurnitureIn(l + f + c) == FurnitureIn(l) + FurnitureIn(f) + FurnitureIn(c)
    ensures CollisionsIn(l + f + c) == CollisionsIn(l) + CollisionsIn(f) + CollisionsIn(c)
  {
    LightsAppend(l, f);
    LightsAppend(l + f, c);
    FurnitureAppend(l, f);
    FurnitureAppend(l + f, c);
    CollisionsAppend(l, f);
    CollisionsAppend(l + f, c);
  }

  /**
   * Capture, then rebuild, gives back the three registries exactly: the
   * snapshot loses no entry, invents none and keeps their order (a spot
   * light's target reference is the one thing not carried over).
   */
  lemma SaveStateRoundTrip(lights: seq<LightSetup>, furniture: seq<FurnitureSetup>, boxes: seq<CollisionSetup>)
    ensures LightsIn(SaveState(lights, furniture, boxes)) == WithoutTargets(lights)
    ensures FurnitureIn(SaveState(lights, furniture, boxes)) == furniture
    ensures CollisionsIn(SaveState(lights, furniture, boxes)) == boxes
  {
    var l, f, c := LightsState(lights), FurnitureState(furniture), CollisionState(boxes);
    assert LightsIn(l + f + c) == WithoutTargets(lights) by {
      LightsRoundTrip(lights);
      FurnitureRoundTrip(furniture);
      CollisionRoundTrip(boxes);
      RebuildThree(l, f, c);
    }
    assert FurnitureIn(l + f + c) == furniture by {
      LightsRoundTrip(lights);
      FurnitureRoundTrip(furniture);
      CollisionRoundTrip(boxes);
      RebuildThree(l, f, c);
    }
    assert CollisionsIn(l + f + c) == boxes by {
      LightsRoundTrip(lights);
      FurnitureRoundTrip(furniture);
      CollisionRoundTrip(boxes);
      RebuildThree(l, f, c);
    }
  }

  /**
   * Capture, then restore the transforms, gives back every captured
   * transform: entry `i` of the snapshot holds the transform its object had
   * when `saveState` was called.
   */
  lemma SaveStatePoses(lights: seq<LightSetup>, furniture: seq<FurnitureSetup>, boxes: seq<CollisionSetup>, i: int)
    requires 0 <= i < |SaveState(lights, furniture, boxes)|
    ensures SaveState(lights, furniture, boxes)[i].pose == SaveState(lights, furniture, boxes)[i].Target().CurrentPose()
  {
    var l, f := |lights|, |furniture|;
    if i < l {
      assert SaveState(lights, furniture, boxes)[i] == LightsState(lights)[i];
    } else if i < l + f {
      assert SaveState(lights, furniture, boxes)[i] == FurnitureState(furniture)[i - l];
    } else {
      assert SaveState(lights, furniture, boxes)[i] == CollisionState(boxes)[i - l - f];
    }
  }

  /** No two of `objs` share a transform. */
  predicate OwnTransforms(objs: seq<Obj>)
  {
    forall i, j :: 0 <= i < j < |objs| ==> objs[i].transform != objs[j].transform
  }

  /** The objects the scene history's `saveState` records, in snapshot order. */
  function SavedObjects(lights: seq<LightSetup>, furniture: seq<FurnitureSetup>, boxes: seq<CollisionSetup>): seq<Obj>
  {
    Lights(lights) + Groups(furniture) + BoxMeshes(boxes)
  }

  /** A snapshot whose entries all name objects with different transforms has every entry last for its object. */
  lemma DistinctAllLast(s: Snapshot)
    requires forall i, j :: 0 <= i < j < |s| ==> s[i].Target().transform != s[j].Target().transform
    ensures forall i :: 0 <= i < |s| ==> LastFor(s, i)
  {
    forall i | 0 <= i < |s|
      ensures LastFor(s, i)
    {
      LastBeforeMeans(s, i, |s|);
    }
  }

  /**
   * `saveState` names the registry objects in order, so when those objects
   * each have their own transform every entry of the snapshot is last for
   * its object: `applyState` of it restores each object to exactly the
   * transform recorded for it.
   */
  lemma SaveStateAllLast(lights: seq<LightSetup>, furniture: seq<FurnitureSetup>, boxes: seq<CollisionSetup>)
    requires OwnTransforms(SavedObjects(lights, furniture, boxes))
    ensures forall i :: 0 <= i < |SaveState(lights, furniture, boxes)| ==> LastFor(SaveState(lights, furniture, boxes), i)
  {
    var s, objs := SaveState(lights, furniture, boxes), SavedObjects(lights, furniture, boxes);
    forall i, j | 0 <= i < j < |s|
      ensures s[i].Target().transform != s[j].Target().transform
    {
      SaveStateTarget(lights, furniture, boxes, i);
      SaveStateTarget(lights, furniture, boxes, j);
    }
    DistinctAllLast(s);
  }

  /** Entry `i` of the scene history's snapshot names object `i` of SavedObjects. */
  lemma SaveStateTarget(lights: seq<LightSetup>, furniture: seq<FurnitureSetup>, boxes: seq<CollisionSetup>, i: int)
    requires 0 <= i < |SaveState(lights, furniture, boxes)|
    ensures SaveState(lights, furniture, boxes)[i].Target() == SavedObjects(lights, furniture, boxes)[i]
  {
    var s, objs, l, f := SaveState(lights, furniture, boxes), SavedObjects(lights, furniture, boxes), |lights|, |furniture|;
    if i < l {
      assert s[i] == LightsState(lights)[i] && objs[i] == Lights(lights)[i];
    } else if i < l + f {
      assert s[i] == FurnitureState(furniture)[i - l] && objs[i] == Groups(furniture)[i - l];
    } else {
      assert s[i] == CollisionState(boxes)[i - l - f] && objs[i] == BoxMeshes(boxes)[i - l - f];
    }
  }

  /** The collision history's `saveState`: with boxes of their own transforms, every entry is last for its box. */
  lemma CollisionStateAllLast(boxes: seq<CollisionSetup>)
    requires OwnTransforms(BoxMeshes(boxes))
    ensures forall i :: 0 <= i < |CollisionState(boxes)| ==> LastFor(CollisionState(boxes), i)
  {
    DistinctAllLast(CollisionState(boxes));
  }
}
