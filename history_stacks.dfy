/**
 * The stack discipline shared by both history objects of the editor
 * (the scene history in modelInteraction.js and the collision-box history
 * in collisionInteraction.js): `past` and `future` are arrays used as
 * stacks whose top is the LAST element (`push`/`pop`), `present` is the
 * snapshot currently shown, and `maxHistoryPoints` bounds `past`.
 *
 * These functions are the abstract values of the two history classes in
 * module Editor; their methods are proved to update `past`, `present` and
 * `future` exactly as these functions say.
 */
module HistoryStacks {

  datatype Stacks<S> = Stacks(past: seq<S>, present: S, future: seq<S>)

  /** The invariant kept by push, undo and redo together: the stacks never hold more than `maxHistoryPoints - 1` snapshots. */
  predicate Bounded<S>(h: Stacks<S>, maxHistoryPoints: int)
  {
    |h.past| + |h.future| <= maxHistoryPoints - 1
  }

  /**
   * `history.push()` once the new present has been captured as `snap`:
   * the old present goes on top of `past`, the oldest entry is shifted out
   * when `past` is longer than `maxHistoryPoints - 1`, and `future` is
   * discarded.
   */
  function Push<S>(h: Stacks<S>, snap: S, maxHistoryPoints: int): (r: Stacks<S>)
    ensures r.present == snap && r.future == []
    // without eviction the old present is simply on top of past ...
    ensures |h.past| + 1 <= maxHistoryPoints - 1 ==> r.past == h.past + [h.present]
    // ... and with eviction exactly the oldest entry is gone
    ensures |h.past| + 1 > maxHistoryPoints - 1 ==> [(h.past + [h.present])[0]] + r.past == h.past + [h.present]
    ensures |r.past| > 0 ==> r.past[|r.past| - 1] == h.present
    ensures maxHistoryPoints >= 2 ==> |r.past| > 0
    ensures |h.past| <= maxHistoryPoints - 1 ==> |r.past| <= maxHistoryPoints - 1
    ensures Bounded(h, maxHistoryPoints) ==> Bounded(r, maxHistoryPoints)
    // linear history: nothing to redo after a push
    ensures Redo(r) == r
  {
    var grown := h.past + [h.present];
    var past := if |grown| > maxHistoryPoints - 1 then grown[1..] else grown;
    Stacks(past, snap, [])
  }

  /**
   * `history.undo()`: a no-op when `past` is empty; otherwise the present
   * goes on top of `future` and the top of `past` becomes the present.
   */
  function Undo<S>(h: Stacks<S>): (r: Stacks<S>)
    ensures |h.past| == 0 ==> r == h
    ensures |h.past| > 0 ==> r.present == h.past[|h.past| - 1]
    ensures |h.past| > 0 ==> |r.past| == |h.past| - 1 && |r.future| == |h.future| + 1
    ensures |h.past| > 0 ==> r.past == h.past[..|h.past| - 1] && r.future == h.future + [h.present]
    ensures |r.past| + |r.future| == |h.past| + |h.future|
    ensures forall m: int :: Bounded(h, m) ==> Bounded(r, m)
    // a redo right after an undo that did something restores all three stacks
    ensures |h.past| > 0 ==> Redo(r) == h
  {
    if |h.past| == 0 then h
    else Stacks(h.past[..|h.past| - 1], h.past[|h.past| - 1], h.future + [h.present])
  }

  /**
   * `history.redo()`: a no-op when `future` is empty; otherwise the present
   * goes on top of `past` and the top of `future` becomes the present.
   */
  function Redo<S>(h: Stacks<S>): (r: Stacks<S>)
    ensures |h.future| == 0 ==> r == h
    ensures |h.future| > 0 ==> r.present == h.future[|h.future| - 1]
    ensures |h.future| > 0 ==> |r.past| == |h.past| + 1 && |r.future| == |h.future| - 1
    ensures |h.future| > 0 ==> r.past == h.past + [h.present] && r.future == h.future[..|h.future| - 1]
    ensures |r.past| + |r.future| == |h.past| + |h.future|
    ensures forall m: int :: Bounded(h, m) ==> Bounded(r, m)
  {
    if |h.future| == 0 then h
    else Stacks(h.past + [h.present], h.future[|h.future| - 1], h.future[..|h.future| - 1])
  }

  /** An undo right after a redo restores all three stacks. */
  lemma RedoThenUndo<S>(h: Stacks<S>)
    requires |h.future| > 0
    ensures Undo(Redo(h)) == h
  {
    assert (h.future[..|h.future| - 1] + [h.future[|h.future| - 1]]) == h.future;
  }

  /** `n` undos in a row. */
  function UndoN<S>(h: Stacks<S>, n: nat): (r: Stacks<S>)
    ensures n <= |h.past| ==> |r.past| == |h.past| - n
    ensures |r.past| + |r.future| == |h.past| + |h.future|
  {
    if n == 0 then h else Undo(UndoN(h, n - 1))
  }

  /** `n` redos in a row. */
  function RedoN<S>(h: Stacks<S>, n: nat): (r: Stacks<S>)
    ensures |r.past| + |r.future| == |h.past| + |h.future|
    decreases n
  {
    if n == 0 then h else RedoN(Redo(h), n - 1)
  }

  /** Undoing `n` steps that are all available and then redoing `n` steps restores the history exactly. */
  lemma {:induction false} UndoNThenRedoN<S>(h: Stacks<S>, n: nat)
    requires n <= |h.past|
    ensures RedoN(UndoN(h, n), n) == h
  {
    if n > 0 {
      var g := UndoN(h, n - 1);
      assert |g.past| > 0;
      assert Redo(Undo(g)) == g;
      calc {
        RedoN(UndoN(h, n), n);
        RedoN(Undo(g), n);
        RedoN(Redo(Undo(g)), n - 1);
        RedoN(g, n - 1);
        { UndoNThenRedoN(h, n - 1); }
        h;
      }
    }
  }

  /** However many times one undoes, the present is always one of the snapshots the history held. */
  lemma {:induction false} UndoNStaysInHistory<S>(h: Stacks<S>, n: nat)
    ensures UndoN(h, n).present == h.present || UndoN(h, n).present in h.past
    ensures UndoN(h, n).past <= h.past
  {
    if n > 0 {
      UndoNStaysInHistory(h, n - 1);
      var g := UndoN(h, n - 1);
      if |g.past| > 0 {
        assert g.past[|g.past| - 1] in g.past;
        assert g.past[..|g.past| - 1] <= g.past;
      }
    }
  }

  /** The last `n` elements of `s` (all of `s` when it is shorter). */
  function Newest<S>(s: seq<S>, n: nat): (r: seq<S>)
    ensures |r| == if |s| <= n then |s| else n
  {
    if |s| <= n then s else s[|s| - n..]
  }

  /** Keeping the newest `k` of `a` loses nothing of the newest `n` of `a + b` when `k + |b| >= n`. */
  lemma NewestOfNewest<S>(a: seq<S>, b: seq<S>, k: nat, n: nat)
    requires k + |b| >= n
    ensures Newest(Newest(a, k) + b, n) == Newest(a + b, n)
  {
    if |a| > k {
      var na := Newest(a, k);
      assert na + b == (a + b)[|a| - k..];
    }
  }

  /** Pushing the snapshots of `snaps` one after another. */
  function PushAll<S>(h: Stacks<S>, snaps: seq<S>, maxHistoryPoints: int): Stacks<S>
    decreases |snaps|
  {
    if snaps == [] then h else PushAll(Push(h, snaps[0], maxHistoryPoints), snaps[1..], maxHistoryPoints)
  }

  /** Every snapshot that has been or is the present, oldest first, after pushing `snaps` onto `h`. */
  function Trail<S>(h: Stacks<S>, snaps: seq<S>): seq<S>
  {
    h.past + [h.present] + snaps
  }

  /**
   * Bounded memory: after any number of pushes, `past` followed by
   * `present` is exactly the newest `maxHistoryPoints` snapshots of the
   * whole trail, oldest first; everything older is gone for good.
   */
  lemma {:induction false} PushAllKeepsNewest<S>(h: Stacks<S>, snaps: seq<S>, maxHistoryPoints: int)
    requires maxHistoryPoints >= 1 && |h.past| <= maxHistoryPoints - 1
    ensures var r := PushAll(h, snaps, maxHistoryPoints);
            r.past + [r.present] == Newest(Trail(h, snaps), maxHistoryPoints)
    ensures snaps != [] ==> PushAll(h, snaps, maxHistoryPoints).future == []
    decreases |snaps|
  {
    if snaps == [] {
      assert Trail(h, snaps) == h.past + [h.present];
    } else {
      PushAllKeepsNewest(Push(h, snaps[0], maxHistoryPoints), snaps[1..], maxHistoryPoints);
      PushAllStep(h, snaps, maxHistoryPoints);
    }
  }

  /** Once the first of `snaps` is the present, the rest of the trail is `snaps` itself. */
  lemma TrailAfterPush<S>(h1: Stacks<S>, snaps: seq<S>)
    requires snaps != [] && h1.present == snaps[0]
    ensures Trail(h1, snaps[1..]) == h1.past + snaps
  {
    assert [h1.present] + snaps[1..] == snaps;
  }

  /** The inductive step of PushAllKeepsNewest: one push, then the rest. */
  lemma PushAllStep<S>(h: Stacks<S>, snaps: seq<S>, maxHistoryPoints: int)
    requires maxHistoryPoints >= 1 && |h.past| <= maxHistoryPoints - 1 && snaps != []
    requires var h1 := Push(h, snaps[0], maxHistoryPoints);
             var r1 := PushAll(h1, snaps[1..], maxHistoryPoints);
             r1.past + [r1.present] == Newest(Trail(h1, snaps[1..]), maxHistoryPoints)
    ensures var r := PushAll(h, snaps, maxHistoryPoints);
            r.past + [r.present] == Newest(Trail(h, snaps), maxHistoryPoints)
  {
    var h1 := Push(h, snaps[0], maxHistoryPoints);
    var grown := h.past + [h.present];
    assert PushAll(h, snaps, maxHistoryPoints) == PushAll(h1, snaps[1..], maxHistoryPoints);
    assert h1.past == Newest(grown, maxHistoryPoints - 1);
    TrailAfterPush(h1, snaps);
    NewestOfNewest(grown, snaps, maxHistoryPoints - 1, maxHistoryPoints);
    assert Trail(h, snaps) == grown + snaps;
  }

  /**
   * With `maxHistoryPoints = 3`, after five pushes starting from an empty
   * history, `past` holds only the two most recent earlier states and
   * undoing any number of times never brings back the older ones.
   */
  lemma PushFiveWithCapacityThree<S>(e: S, s1: S, s2: S, s3: S, s4: S, s5: S, k: nat)
    ensures PushAll(Stacks([], e, []), [s1, s2, s3, s4, s5], 3) == Stacks([s3, s4], s5, [])
    ensures var u := UndoN(PushAll(Stacks([], e, []), [s1, s2, s3, s4, s5], 3), k);
            u.present == s3 || u.present == s4 || u.present == s5
  {
    var h := Stacks([], e, []);
    var snaps := [s1, s2, s3, s4, s5];
    var r := PushAll(h, snaps, 3);
    PushAllKeepsNewest(h, snaps, 3);
    assert Trail(h, snaps) == [e, s1, s2, s3, s4, s5];
    assert Newest(Trail(h, snaps), 3) == [s3, s4, s5];
    assert r.past + [r.present] == [s3, s4, s5];
    assert |r.past| == 2;
    assert (r.past + [r.present])[0] == s3 && (r.past + [r.present])[1] == s4;
    assert r.past == [s3, s4];
    assert (r.past + [r.present])[2] == r.present == s5;
    assert r.future == [];
    UndoNStaysInHistory(r, k);
  }
}
