/**
 * The bookkeeping of the menu manager's preview mode: which helpers
 * `enterPreviewMode` hides and records in `hiddenHelpers`, and what
 * `exitPreviewMode` writes back.
 *
 * Hiding only ever clears `visible`, so while preview is being entered an
 * object is visible exactly when it was visible before (it is in `W`) and
 * has not been hidden since (it is not in `H`).  The record functions below
 * are stated in those terms, which makes them exact even when an object
 * occurs twice in a registry or in two registries.
 */
module Preview {
  import opened SceneGraph

  /**
   * An entry of `hiddenHelpers`: a light helper or collision box stored as
   * itself, or a furniture helper sphere stored as `{ object, visible }`.
   */
  datatype HiddenHelper = Plain(obj: Obj) | Stored(obj: Obj, visible: bool)

  /** A DOM element the preview hides: the transform button bar, a menu button. */
  class Button {
    constructor ()
    {
    }
  }

  /** The page, reduced to which elements have `style.display` set to `'none'`. */
  class Document {
    var hidden: set<Button>

    constructor ()
      ensures hidden == {}
    {
      hidden := {};
    }
  }

  /** The buttons of a sequence, as a set. */
  function ButtonSet(bs: seq<Button>): set<Button>
  {
    set b | b in bs
  }

  /** The buttons of `bs` other than `p`, in order: the menu buttons `enterPreviewMode` hides. */
  function Except(bs: seq<Button>, p: Button): (r: seq<Button>)
    ensures forall i :: 0 <= i < |r| ==> r[i] in bs && r[i] != p
    ensures forall i :: 0 <= i < |bs| && bs[i] != p ==> bs[i] in r
  {
    if bs == [] then []
    else
      var init, last := bs[..|bs| - 1], bs[|bs| - 1];
      assert bs == init + [last];
      Except(init, p) + (if last != p then [last] else [])
  }

  /**
   * The buttons keep their order: filtering two runs of buttons one after
   * the other gives the first run's survivors, then the second's.
   */
  lemma {:induction false} ExceptAppend(a: seq<Button>, b: seq<Button>, p: Button)
    ensures Except(a + b, p) == Except(a, p) + Except(b, p)
    decreases |b|
  {
    if b != [] {
      var init, last := b[..|b| - 1], b[|b| - 1];
      assert (a + b)[..|a + b| - 1] == a + init;
      ExceptAppend(a, init, p);
    } else {
      assert a + b == a;
    }
  }

  /** `hiddenButtons.forEach(button => { button.style.display = ''; })` */
  method ShowAll(doc: Document, bs: seq<Button>)
    modifies doc
    ensures doc.hidden == old(doc.hidden) - ButtonSet(bs)
  {
    for i := 0 to |bs|
      invariant doc.hidden == old(doc.hidden) - ButtonSet(bs[..i])
    {
      assert ButtonSet(bs[..i + 1]) == ButtonSet(bs[..i]) + {bs[i]} by {
        assert bs[..i + 1] == bs[..i] + [bs[i]];
      }
      doc.hidden := doc.hidden - {bs[i]};
    }
    assert bs[..|bs|] == bs;
  }

  /** The visibility `exitPreviewMode` gives back to the object of entry `e`. */
  function RestoredVisible(e: HiddenHelper): bool
  {
    match e
    case Plain(_) => true
    case Stored(_, v) => v
  }

  /** The objects of a sequence, as a set. */
  function Elems(os: seq<Obj>): (r: set<Obj>)
    ensures forall i :: 0 <= i < |os| ==> os[i] in r
    ensures forall o :: o in r ==> o in os
  {
    if os == [] then {} else Elems(os[..|os| - 1]) + {os[|os| - 1]}
  }

  /** The objects of `D` that are currently visible. */
  function VisibleOf(D: set<Obj>): set<Obj>
    reads D
  {
    set o | o in D && o.visible
  }

  /**
   * What hiding the objects of `os` in order appends to `hiddenHelpers`:
   * each object that is still visible when its turn comes, that is, visible
   * before (in `W`), not hidden before (not in `H`) and not an earlier
   * element of `os`.
   */
  function PlainRecord(os: seq<Obj>, W: set<Obj>, H: set<Obj>): (r: seq<HiddenHelper>)
    ensures forall i :: 0 <= i < |r| ==> r[i].Plain? && r[i].obj in os && r[i].obj in W && r[i].obj !in H
    ensures forall i :: 0 <= i < |os| && os[i] in W && os[i] !in H ==> Plain(os[i]) in r
  {
    if os == [] then []
    else
      var init, last := os[..|os| - 1], os[|os| - 1];
      PlainRecord(init, W, H) + (if last in W && last !in H + Elems(init) then [Plain(last)] else [])
  }

  /** The first helper sphere of each group: what `children.find(...)` returns for it. */
  function SpheresOf(gs: seq<Obj>): (r: seq<Option<Obj>>)
    ensures |r| == |gs|
    ensures forall i :: 0 <= i < |gs| ==> r[i] == FirstSphere(gs[i].children)
  {
    if gs == [] then [] else [FirstSphere(gs[0].children)] + SpheresOf(gs[1..])
  }

  /** The spheres that were found. */
  function SphereObjs(sph: seq<Option<Obj>>): (r: set<Obj>)
    ensures forall i :: 0 <= i < |sph| && sph[i].Some? ==> sph[i].value in r
  {
    if sph == [] then {}
    else
      var last := sph[|sph| - 1];
      SphereObjs(sph[..|sph| - 1]) + (if last.Some? then {last.value} else {})
  }

  /**
   * What the furniture pass of `enterPreviewMode` appends to
   * `hiddenHelpers`, and the hidden set after it, for helper groups `gs`
   * whose first helper spheres are `sph`: for each group still visible
   * that has a sphere, the sphere with its visibility at that moment; the
   * sphere is hidden from then on.  The groups themselves are not hidden.
   */
  function SphereRecord(gs: seq<Obj>, sph: seq<Option<Obj>>, W: set<Obj>, H: set<Obj>): (r: (seq<HiddenHelper>, set<Obj>))
    requires |gs| == |sph|
    ensures H <= r.1
    ensures forall i :: 0 <= i < |r.0| ==> r.0[i].Stored? && Some(r.0[i].obj) in sph
    ensures r.1 <= H + SphereObjs(sph)
  {
    if gs == [] then ([], H)
    else
      var n := |gs| - 1;
      var prev := SphereRecord(gs[..n], sph[..n], W, H);
      var g, s := gs[n], sph[n];
      if g in W && g !in prev.1 && s.Some? then
        (prev.0 + [Stored(s.value, s.value in W && s.value !in prev.1)], prev.1 + {s.value})
      else prev
  }

  /** The hidden set SphereRecord ends with grows by exactly the spheres it records. */
  lemma {:induction false} SphereRecordHidden(gs: seq<Obj>, sph: seq<Option<Obj>>, W: set<Obj>, H: set<Obj>)
    requires |gs| == |sph|
    ensures SphereRecord(gs, sph, W, H).1 == H + HiddenObjs(SphereRecord(gs, sph, W, H).0)
  {
    if gs != [] {
      var n := |gs| - 1;
      SphereRecordHidden(gs[..n], sph[..n], W, H);
      var prev := SphereRecord(gs[..n], sph[..n], W, H);
      var g, s := gs[n], sph[n];
      if g in W && g !in prev.1 && s.Some? {
        var rec := prev.0 + [Stored(s.value, s.value in W && s.value !in prev.1)];
        assert rec[..|rec| - 1] == prev.0;
      }
    }
  }

  /**
   * Each entry of SphereRecord keeps the visibility its sphere had at its
   * turn: visible before, and hidden neither before the pass nor by an
   * earlier entry.
   */
  lemma {:induction false} SphereRecordFlags(gs: seq<Obj>, sph: seq<Option<Obj>>, W: set<Obj>, H: set<Obj>)
    requires |gs| == |sph|
    ensures var r := SphereRecord(gs, sph, W, H).0;
            forall i :: 0 <= i < |r| ==> r[i].visible == (r[i].obj in W && r[i].obj !in H + HiddenObjs(r[..i]))
  {
    if gs != [] {
      var n := |gs| - 1;
      SphereRecordFlags(gs[..n], sph[..n], W, H);
      SphereRecordHidden(gs[..n], sph[..n], W, H);
      var prev := SphereRecord(gs[..n], sph[..n], W, H);
      var g, s := gs[n], sph[n];
      if g in W && g !in prev.1 && s.Some? {
        var rec := prev.0 + [Stored(s.value, s.value in W && s.value !in prev.1)];
        forall i | 0 <= i < |rec|
          ensures rec[i].visible == (rec[i].obj in W && rec[i].obj !in H + HiddenObjs(rec[..i]))
        {
          if i < |prev.0| {
            assert rec[..i] == prev.0[..i] && rec[i] == prev.0[i];
          } else {
            assert rec[..i] == prev.0;
          }
        }
      }
    }
  }

  /** Each group visible before and not hidden by the end of the pass had its sphere recorded. */
  lemma {:induction false} SphereRecordCovers(gs: seq<Obj>, sph: seq<Option<Obj>>, W: set<Obj>, H: set<Obj>)
    requires |gs| == |sph|
    ensures var r := SphereRecord(gs, sph, W, H);
            forall k :: 0 <= k < |gs| && gs[k] in W && gs[k] !in r.1 && sph[k].Some? ==> sph[k].value in HiddenObjs(r.0)
  {
    if gs != [] {
      var n := |gs| - 1;
      SphereRecordCovers(gs[..n], sph[..n], W, H);
      var prev := SphereRecord(gs[..n], sph[..n], W, H);
      var r := SphereRecord(gs, sph, W, H);
      assert prev.1 <= r.1 && HiddenObjs(prev.0) <= HiddenObjs(r.0) by {
        if r != prev {
          assert r.0[..|r.0| - 1] == prev.0;
        }
      }
      forall k | 0 <= k < |gs| && gs[k] in W && gs[k] !in r.1 && sph[k].Some?
        ensures sph[k].value in HiddenObjs(r.0)
      {
        if k < n {
          assert gs[..n][k] == gs[k] && sph[..n][k] == sph[k];
        }
      }
    }
  }

  /**
   * When no group is hidden beforehand or is itself a sphere, no sphere is
   * hidden beforehand, and no sphere is also an earlier group's, the
   * visible group `k` with a sphere records that sphere with the
   * visibility it had before the pass.
   */
  lemma {:induction false} SphereRecordComplete(gs: seq<Obj>, sph: seq<Option<Obj>>, W: set<Obj>, H: set<Obj>, k: int)
    requires |gs| == |sph|
    requires Elems(gs) !! H + SphereObjs(sph) && SphereObjs(sph) !! H
    requires forall m :: 0 <= m < |sph| && sph[m].Some? ==> sph[m].value !in SphereObjs(sph[..m])
    requires 0 <= k < |gs| && gs[k] in W && sph[k].Some?
    ensures Stored(sph[k].value, sph[k].value in W) in SphereRecord(gs, sph, W, H).0
  {
    var n := |gs| - 1;
    var prev := SphereRecord(gs[..n], sph[..n], W, H);
    if k < n {
      PrefixObjects(gs, sph);
      NewSpheresPrefix(sph);
      assert gs[..n][k] == gs[k] && sph[..n][k] == sph[k];
      SphereRecordComplete(gs[..n], sph[..n], W, H, k);
      SphereRecordGrows(gs, sph, W, H, Stored(sph[k].value, sph[k].value in W));
    } else {
      SphereRecordLastFresh(gs, sph, W, H);
    }
  }

  /** What SphereRecord records for fewer groups it still records for more. */
  lemma SphereRecordGrows(gs: seq<Obj>, sph: seq<Option<Obj>>, W: set<Obj>, H: set<Obj>, e: HiddenHelper)
    requires |gs| == |sph| > 0 && e in SphereRecord(gs[..|gs| - 1], sph[..|sph| - 1], W, H).0
    ensures e in SphereRecord(gs, sph, W, H).0
  {
  }

  /** Dropping the last group or sphere drops no other object. */
  lemma PrefixObjects(gs: seq<Obj>, sph: seq<Option<Obj>>)
    requires |gs| == |sph| > 0
    ensures Elems(gs[..|gs| - 1]) <= Elems(gs) && SphereObjs(sph[..|sph| - 1]) <= SphereObjs(sph)
  {
  }

  /** No sphere is also an earlier one's, for the spheres but the last as well. */
  lemma NewSpheresPrefix(sph: seq<Option<Obj>>)
    requires |sph| > 0
    requires forall m :: 0 <= m < |sph| && sph[m].Some? ==> sph[m].value !in SphereObjs(sph[..m])
    ensures var p := sph[..|sph| - 1];
            forall m :: 0 <= m < |p| && p[m].Some? ==> p[m].value !in SphereObjs(p[..m])
  {
    var p := sph[..|sph| - 1];
    forall m | 0 <= m < |p|
      ensures p[m] == sph[m] && p[..m] == sph[..m]
    {
    }
  }

  /** SphereRecordComplete for the last group. */
  lemma SphereRecordLastFresh(gs: seq<Obj>, sph: seq<Option<Obj>>, W: set<Obj>, H: set<Obj>)
    requires |gs| == |sph| > 0
    requires Elems(gs) !! H + SphereObjs(sph) && SphereObjs(sph) !! H
    requires gs[|gs| - 1] in W && sph[|sph| - 1].Some? && sph[|sph| - 1].value !in SphereObjs(sph[..|sph| - 1])
    ensures Stored(sph[|sph| - 1].value, sph[|sph| - 1].value in W) in SphereRecord(gs, sph, W, H).0
  {
    // neither the last group nor its sphere is among the spheres recorded so far
    var n := |gs| - 1;
    var P := SphereObjs(sph[..n]);
    assert SphereObjs(sph) == P + {sph[n].value};
    assert SphereRecord(gs[..n], sph[..n], W, H).1 <= H + P && gs[n] in Elems(gs);
    SphereRecordLast(gs, sph, W, H);
  }

  /** A last group that is visible and not hidden, with a sphere that is not hidden, records the sphere as visible as it was before. */
  lemma SphereRecordLast(gs: seq<Obj>, sph: seq<Option<Obj>>, W: set<Obj>, H: set<Obj>)
    requires |gs| == |sph| > 0
    requires var n, prev := |gs| - 1, SphereRecord(gs[..|gs| - 1], sph[..|sph| - 1], W, H);
             gs[n] in W && gs[n] !in prev.1 && sph[n].Some? && sph[n].value !in prev.1
    ensures Stored(sph[|sph| - 1].value, sph[|sph| - 1].value in W) in SphereRecord(gs, sph, W, H).0
  {
  }

  /**
   * The whole `hiddenHelpers` that `enterPreviewMode` builds from light
   * helpers `hs`, furniture helper groups `gs` and collision boxes `bs`
   * when the objects visible beforehand are `W`.
   */
  function Record(hs: seq<Obj>, gs: seq<Obj>, bs: seq<Obj>, W: set<Obj>): seq<HiddenHelper>
  {
    var sr := SphereRecord(gs, SpheresOf(gs), W, Elems(hs));
    PlainRecord(hs, W, {}) + sr.0 + PlainRecord(bs, W, sr.1)
  }

  /**
   * While preview is being entered, an object of `D` is visible exactly
   * when it was visible before (it is in `W`) and has not been hidden
   * since (it is not in `H`).
   */
  ghost predicate VisibleExactly(D: set<Obj>, W: set<Obj>, H: set<Obj>)
    reads D
  {
    forall o :: o in D ==> o.visible == (o in W && o !in H)
  }

  /** Hide `o`, which is one of `D`; it counts as hidden from now on. */
  method Hide(o: Obj, ghost D: set<Obj>, ghost W: set<Obj>, ghost H: set<Obj>)
    requires o in D && VisibleExactly(D, W, H)
    modifies o
    ensures !o.visible
    ensures VisibleExactly(D, W, H + {o})
  {
    o.visible := false;
  }

  /** `if (o.visible) { o.visible = false; ... }`: whether `o` was visible, after which it counts as hidden. */
  method HideIfVisible(o: Obj, ghost D: set<Obj>, ghost W: set<Obj>, ghost H: set<Obj>) returns (wasVisible: bool)
    requires o in D && VisibleExactly(D, W, H)
    modifies o
    ensures wasVisible == (o in W && o !in H)
    ensures VisibleExactly(D, W, H + {o})
  {
    wasVisible := o.visible;
    if wasVisible {
      Hide(o, D, W, H);
    }
  }

  /**
   * The light-helper and collision-box passes of `enterPreviewMode`: each
   * object of `os` still visible when its turn comes is hidden and
   * recorded as itself.  `D` is every object the passes look at, `W` those
   * of them visible before the first pass and `H` those hidden since.
   */
  method HidePlain(os: seq<Obj>, ghost D: set<Obj>, ghost W: set<Obj>, ghost H: set<Obj>) returns (rec: seq<HiddenHelper>)
    requires Elems(os) <= D && VisibleExactly(D, W, H)
    modifies os
    ensures rec == PlainRecord(os, W, H)
    ensures VisibleExactly(D, W, H + Elems(os))
  {
    rec := [];
    for i := 0 to |os|
      invariant rec == PlainRecord(os[..i], W, H)
      invariant VisibleExactly(D, W, H + Elems(os[..i]))
    {
      PlainRecordStep(os, i, W, H);
      var wasVisible := HideIfVisible(os[i], D, W, H + Elems(os[..i]));
      if wasVisible {
        rec := rec + [Plain(os[i])];
      }
    }
    assert os[..|os|] == os;
  }

  /** PlainRecord over one more object: that object is recorded when it is neither hidden before nor earlier in the pass. */
  lemma PlainRecordStep(os: seq<Obj>, i: int, W: set<Obj>, H: set<Obj>)
    requires 0 <= i < |os|
    ensures PlainRecord(os[..i + 1], W, H) ==
              PlainRecord(os[..i], W, H) + (if os[i] in W && os[i] !in H + Elems(os[..i]) then [Plain(os[i])] else [])
    ensures Elems(os[..i + 1]) == Elems(os[..i]) + {os[i]}
  {
    assert os[..i + 1][..i] == os[..i] && os[..i + 1][i] == os[i];
  }

  /** SphereRecord over one more group: what that group adds to the record and to the hidden set. */
  lemma SphereRecordStep(gs: seq<Obj>, sph: seq<Option<Obj>>, i: int, W: set<Obj>, H: set<Obj>)
    requires |gs| == |sph| && 0 <= i < |gs|
    ensures var prev := SphereRecord(gs[..i], sph[..i], W, H);
            var s := sph[i];
            SphereRecord(gs[..i + 1], sph[..i + 1], W, H) ==
              if gs[i] in W && gs[i] !in prev.1 && s.Some?
              then (prev.0 + [Stored(s.value, s.value in W && s.value !in prev.1)], prev.1 + {s.value})
              else prev
  {
    assert gs[..i + 1][..i] == gs[..i] && sph[..i + 1][..i] == sph[..i];
  }

  /**
   * One step of the furniture pass: when the group `helper` is visible
   * and has a helper sphere, the sphere is recorded with its visibility
   * and then hidden.
   */
  method HideSphereOf(helper: Obj, ghost D: set<Obj>, ghost W: set<Obj>, ghost H: set<Obj>) returns (entry: seq<HiddenHelper>)
    requires helper in D && VisibleExactly(D, W, H)
    requires FirstSphere(helper.children).Some? ==> FirstSphere(helper.children).value in D
    modifies if FirstSphere(helper.children).Some? then {FirstSphere(helper.children).value} else {}
    ensures var s := FirstSphere(helper.children);
            if helper in W && helper !in H && s.Some?
            then entry == [Stored(s.value, s.value in W && s.value !in H)] && VisibleExactly(D, W, H + {s.value})
            else entry == [] && VisibleExactly(D, W, H)
  {
    entry := [];
    if helper.visible {
      var helperSphere := FirstSphere(helper.children);
      if helperSphere.Some? {
        entry := [Stored(helperSphere.value, helperSphere.value.visible)];
        Hide(helperSphere.value, D, W, H);
      }
    }
  }

  /**
   * The furniture pass of `enterPreviewMode`: for each helper group of
   * `gs` still visible that has a helper sphere, the sphere is recorded
   * with its visibility at that moment and then hidden; the groups
   * themselves keep their visibility.
   */
  method HideSpheres(gs: seq<Obj>, ghost D: set<Obj>, ghost W: set<Obj>, ghost H: set<Obj>) returns (rec: seq<HiddenHelper>)
    requires Elems(gs) + SphereObjs(SpheresOf(gs)) <= D && VisibleExactly(D, W, H)
    modifies SphereObjs(SpheresOf(gs))
    ensures rec == SphereRecord(gs, SpheresOf(gs), W, H).0
    ensures VisibleExactly(D, W, SphereRecord(gs, SpheresOf(gs), W, H).1)
  {
    ghost var sph := SpheresOf(gs);
    rec := [];
    for i := 0 to |gs|
      invariant rec == SphereRecord(gs[..i], sph[..i], W, H).0
      invariant VisibleExactly(D, W, SphereRecord(gs[..i], sph[..i], W, H).1)
    {
      rec := HideSpheresStep(gs, i, D, W, H, rec);
    }
    assert gs[..|gs|] == gs && sph[..|sph|] == sph;
  }

  /** One turn of the furniture pass, for group `i`: the record and the hidden set grow as SphereRecord says. */
  method HideSpheresStep(gs: seq<Obj>, i: int, ghost D: set<Obj>, ghost W: set<Obj>, ghost H: set<Obj>, rec: seq<HiddenHelper>)
    returns (rec': seq<HiddenHelper>)
    requires 0 <= i < |gs| && Elems(gs) + SphereObjs(SpheresOf(gs)) <= D
    requires rec == SphereRecord(gs[..i], SpheresOf(gs)[..i], W, H).0
    requires VisibleExactly(D, W, SphereRecord(gs[..i], SpheresOf(gs)[..i], W, H).1)
    modifies SphereObjs(SpheresOf(gs))
    ensures rec' == SphereRecord(gs[..i + 1], SpheresOf(gs)[..i + 1], W, H).0
    ensures VisibleExactly(D, W, SphereRecord(gs[..i + 1], SpheresOf(gs)[..i + 1], W, H).1)
  {
    ghost var sph := SpheresOf(gs);
    SphereRecordStep(gs, sph, i, W, H);
    assert sph[i] == FirstSphere(gs[i].children) && (sph[i].Some? ==> sph[i].value in SphereObjs(sph));
    var entry := HideSphereOf(gs[i], D, W, SphereRecord(gs[..i], sph[..i], W, H).1);
    rec' := rec + entry;
  }

  /** Every object whose visibility the three passes read or write. */
  function Objects(hs: seq<Obj>, gs: seq<Obj>, bs: seq<Obj>): set<Obj>
  {
    Elems(hs) + Elems(gs) + SphereObjs(SpheresOf(gs)) + Elems(bs)
  }

  /** The objects the passes may hide: the light helpers, the groups' helper spheres and the boxes. */
  function Hideable(hs: seq<Obj>, gs: seq<Obj>, bs: seq<Obj>): set<Obj>
  {
    Elems(hs) + SphereObjs(SpheresOf(gs)) + Elems(bs)
  }

  /**
   * The helpers after the three passes of `enterPreviewMode`: every light
   * helper of `hs` and every box of `bs` is hidden, and every group of
   * `gs` outside `hideable` is visible exactly when it was before (it is
   * in `V`).
   */
  ghost predicate HelpersHidden(hs: seq<Obj>, gs: seq<Obj>, bs: seq<Obj>, hideable: set<Obj>, V: set<Obj>)
    reads Elems(hs) + Elems(gs) + Elems(bs)
  {
    && (forall j :: 0 <= j < |hs| ==> !hs[j].visible)
    && (forall j :: 0 <= j < |bs| ==> !bs[j].visible)
    && (forall j :: 0 <= j < |gs| && gs[j] !in hideable ==> gs[j].visible == (gs[j] in V))
  }

  /**
   * The three passes of `enterPreviewMode` in order: every light helper
   * and every box ends up hidden, every group that is not also one of
   * Hideable() keeps its visibility, and the record is Record() of the
   * visibility beforehand.
   */
  method HideHelpers(hs: seq<Obj>, gs: seq<Obj>, bs: seq<Obj>, ghost T: set<Obj>) returns (rec: seq<HiddenHelper>)
    requires T == Objects(hs, gs, bs)
    modifies T
    ensures rec == Record(hs, gs, bs, old(VisibleOf(Objects(hs, gs, bs))))
    ensures HelpersHidden(hs, gs, bs, Hideable(hs, gs, bs), old(VisibleOf(Objects(hs, gs, bs))))
  {
    ghost var D := Objects(hs, gs, bs);
    ghost var W := VisibleOf(D);
    assert VisibleExactly(D, W, {});
    ghost var sr := SphereRecord(gs, SpheresOf(gs), W, Elems(hs));
    var fromLights := HidePlain(hs, D, W, {});
    var fromFurniture := HideSpheres(gs, D, W, Elems(hs));
    var fromBoxes := HidePlain(bs, D, W, sr.1);
    rec := fromLights + fromFurniture + fromBoxes;
    assert forall j :: 0 <= j < |hs| ==> hs[j] in Elems(hs) && hs[j] in sr.1;
  }

  /** Every sphere SphereObjs collects is a helper sphere when every sphere found is one. */
  lemma {:induction false} SphereObjsAreSpheres(sph: seq<Option<Obj>>, o: Obj)
    requires forall i :: 0 <= i < |sph| && sph[i].Some? ==> sph[i].value.isHelperSphere
    ensures o in SphereObjs(sph) ==> o.isHelperSphere
  {
    if sph != [] {
      SphereObjsAreSpheres(sph[..|sph| - 1], o);
    }
  }

  /** Each entry of Record() names one of the objects the passes look at; exitPreviewMode writes nothing else. */
  lemma RecordObjects(hs: seq<Obj>, gs: seq<Obj>, bs: seq<Obj>, W: set<Obj>)
    ensures HiddenObjs(Record(hs, gs, bs, W)) <= Objects(hs, gs, bs)
  {
    var sph := SpheresOf(gs);
    var sr := SphereRecord(gs, sph, W, Elems(hs));
    var p1, p3 := PlainRecord(hs, W, {}), PlainRecord(bs, W, sr.1);
    var R := Record(hs, gs, bs, W);
    forall o | o in HiddenObjs(R)
      ensures o in Objects(hs, gs, bs)
    {
      HiddenObjsOnly(R, o);
      var i :| 0 <= i < |R| && R[i].obj == o;
      if i < |p1| {
        assert R[i] == p1[i];
      } else if i < |p1| + |sr.0| {
        assert R[i] == sr.0[i - |p1|];
        var k :| 0 <= k < |sph| && sph[k] == Some(o);
      } else {
        assert R[i] == p3[i - |p1| - |sr.0|];
      }
    }
  }

  /** Each entry of Record() is a plain entry for an object visible before, or it names a helper sphere. */
  lemma RecordEntries(hs: seq<Obj>, gs: seq<Obj>, bs: seq<Obj>, W: set<Obj>)
    ensures var R := Record(hs, gs, bs, W);
            forall i :: 0 <= i < |R| ==> (R[i].Plain? && R[i].obj in W) || R[i].obj.isHelperSphere
  {
    var sph := SpheresOf(gs);
    var sr := SphereRecord(gs, sph, W, Elems(hs));
    var p1, p3 := PlainRecord(hs, W, {}), PlainRecord(bs, W, sr.1);
    var R := Record(hs, gs, bs, W);
    forall i | 0 <= i < |R|
      ensures (R[i].Plain? && R[i].obj in W) || R[i].obj.isHelperSphere
    {
      if i < |p1| {
        assert R[i] == p1[i];
      } else if i < |p1| + |sr.0| {
        assert R[i] == sr.0[i - |p1|];
        var k :| 0 <= k < |sph| && sph[k] == Some(R[i].obj);
      } else {
        assert R[i] == p3[i - |p1| - |sr.0|];
      }
    }
  }

  /**
   * A light helper or box that is not a helper sphere is named by the
   * record exactly when it was visible before, and the last entry naming
   * it is then a plain one, which exitPreviewMode turns back into visible.
   */
  lemma {:induction false} RecordRestoresPlain(hs: seq<Obj>, gs: seq<Obj>, bs: seq<Obj>, W: set<Obj>, o: Obj)
    requires (o in hs || o in bs) && !o.isHelperSphere
    ensures var R := Record(hs, gs, bs, W);
            && (o in HiddenObjs(R) <==> o in W)
            && (o in W ==> exists i :: 0 <= i < |R| && LastHidden(R, i, |R|) && R[i] == Plain(o))
  {
    var R := Record(hs, gs, bs, W);
    RecordEntries(hs, gs, bs, W);
    if o in HiddenObjs(R) {
      HiddenObjsOnly(R, o);
      var i :| 0 <= i < |R| && R[i].obj == o;
      assert o in W;
    }
    if o in W {
      RecordHasPlain(hs, gs, bs, W, o);
      var i :| 0 <= i < |R| && R[i] == Plain(o);
      LastNaming(R, i, o);
      var j :| i <= j < |R| && R[j].obj == o && LastHidden(R, j, |R|);
      assert R[j] == Plain(o);
    }
  }

  /** A light helper or box that is visible before and not a helper sphere gets a plain entry. */
  lemma RecordHasPlain(hs: seq<Obj>, gs: seq<Obj>, bs: seq<Obj>, W: set<Obj>, o: Obj)
    requires (o in hs || o in bs) && !o.isHelperSphere && o in W
    ensures Plain(o) in Record(hs, gs, bs, W)
  {
    var sph := SpheresOf(gs);
    var sr := SphereRecord(gs, sph, W, Elems(hs));
    var p1, p3 := PlainRecord(hs, W, {}), PlainRecord(bs, W, sr.1);
    assert Record(hs, gs, bs, W) == p1 + sr.0 + p3;
    if o in hs {
      var k :| 0 <= k < |hs| && hs[k] == o;
      assert Plain(o) in p1;
    } else {
      SphereObjsAreSpheres(sph, o);
      assert o !in Elems(hs);
      var k :| 0 <= k < |bs| && bs[k] == o;
      assert Plain(o) in p3;
    }
  }

  /**
   * The buttons `enterPreviewMode` hides and pushes onto `hiddenButtons`,
   * in order: the transform buttons when present, then every menu button
   * but the preview button `p`.
   */
  function ButtonsToHide(transformButtons: Button?, menuButtons: seq<Button>, p: Button): (r: seq<Button>)
    ensures transformButtons != null ==> |r| > 0 && r[0] == transformButtons
    ensures forall b :: b in r ==> b == transformButtons || (b in menuButtons && b != p)
    ensures forall i :: 0 <= i < |menuButtons| && menuButtons[i] != p ==> menuButtons[i] in r
  {
    (if transformButtons != null then [transformButtons] else []) + Except(menuButtons, p)
  }

  /**
   * No entry of `hh` after entry `i` and before index `k` names the same
   * object, so the restore loop writes entry `i`'s value last.
   */
  predicate LastHidden(hh: seq<HiddenHelper>, i: int, k: int)
    requires 0 <= i < k <= |hh|
    decreases k
  {
    k == i + 1 || (hh[k - 1].obj != hh[i].obj && LastHidden(hh, i, k - 1))
  }

  /** LastHidden, stated outright. */
  lemma {:induction false} LastHiddenMeans(hh: seq<HiddenHelper>, i: int, k: int)
    requires 0 <= i < k <= |hh|
    ensures LastHidden(hh, i, k) <==> forall j :: i < j < k ==> hh[j].obj != hh[i].obj
    decreases k
  {
    if k > i + 1 {
      LastHiddenMeans(hh, i, k - 1);
    }
  }

  /** The objects the entries of `hh` name: everything `exitPreviewMode` writes `visible` on. */
  function HiddenObjs(hh: seq<HiddenHelper>): (r: set<Obj>)
    ensures forall i :: 0 <= i < |hh| ==> hh[i].obj in r
  {
    if hh == [] then {} else HiddenObjs(hh[..|hh| - 1]) + {hh[|hh| - 1].obj}
  }

  /** Nothing but the objects the entries name is in HiddenObjs. */
  lemma {:induction false} HiddenObjsOnly(hh: seq<HiddenHelper>, o: Obj)
    requires o in HiddenObjs(hh)
    ensures exists i :: 0 <= i < |hh| && hh[i].obj == o
  {
    var init := hh[..|hh| - 1];
    if o in HiddenObjs(init) {
      HiddenObjsOnly(init, o);
      var i :| 0 <= i < |init| && init[i].obj == o;
      assert hh[i] == init[i];
    }
  }

  /** When some entry names `o`, the last one that does is last for `o`. */
  lemma {:induction false} LastNaming(hh: seq<HiddenHelper>, i: int, o: Obj)
    requires 0 <= i < |hh| && hh[i].obj == o
    ensures exists j :: i <= j < |hh| && hh[j].obj == o && LastHidden(hh, j, |hh|)
    decreases |hh| - i
  {
    if forall j :: i < j < |hh| ==> hh[j].obj != o {
      LastHiddenMeans(hh, i, |hh|);
    } else {
      var j :| i < j < |hh| && hh[j].obj == o;
      LastNaming(hh, j, o);
    }
  }

  /** Every object the entries `0 .. k-1` of `hh` name has the visibility of the last of them naming it. */
  ghost predicate RestoredUpTo(hh: seq<HiddenHelper>, k: int)
    requires 0 <= k <= |hh|
    reads HiddenObjs(hh)
  {
    forall i | 0 <= i < k && LastHidden(hh, i, k) :: hh[i].obj.visible == RestoredVisible(hh[i])
  }

  /** Write entry `k` of `hh` back: only that entry's object changes, which extends RestoredUpTo from `k` to `k + 1`. */
  method RestoreEntry(hh: seq<HiddenHelper>, k: int)
    requires 0 <= k < |hh| && RestoredUpTo(hh, k)
    modifies hh[k].obj
    ensures hh[k].obj.visible == RestoredVisible(hh[k])
    ensures RestoredUpTo(hh, k + 1)
  {
    match hh[k]
    case Plain(o) =>
      o.visible := true;
    case Stored(o, v) =>
      o.visible := v;
  }

  /**
   * `hiddenHelpers.forEach(...)` in `exitPreviewMode`: a stored sphere gets
   * its stored visibility back, any other helper becomes visible; when an
   * object is named twice, the later entry wins.
   */
  method RestoreAll(hh: seq<HiddenHelper>)
    modifies HiddenObjs(hh)
    ensures forall i | 0 <= i < |hh| && LastHidden(hh, i, |hh|) :: hh[i].obj.visible == RestoredVisible(hh[i])
  {
    for k := 0 to |hh|
      invariant RestoredUpTo(hh, k)
    {
      RestoreEntry(hh, k);
    }
  }
}
