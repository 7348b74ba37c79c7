/**
 What becomes of the overlays of two images when the first image is aborted: exactly when two accepted targets get in
 each other's way, and the runs in which they do.
 */
module CacheAlias {
  import opened Bytes
  import opened Utf8
  import opened Snapshot
  import opened Paths
  import opened SourceTree
  import opened TreeHash
  import opened CacheProtocol
  import opened CacheKernel
  import opened CacheManager
  import opened CacheInvariant
  import opened CacheRuns
  import opened CacheOverlays
  import CacheOverlayRuns
  import CacheAnswers
  import opened CachePipeline
  import opened CacheUndo
  import opened CacheCover

  // ----- Taking mounts off one after the other -----

  /** Unmounts the places in order and stops at the first that cannot be unmounted. */
  function TakeOff(ms: seq<Mount>, places: seq<Location>): (r: (seq<Mount>, bool))
    decreases |places|
  {
    if places == [] then (ms, true)
    else if !CanUnmount(ms, places[0]) then (ms, false)
    else TakeOff(RemoveMount(ms, Top(ms, places[0]).value), places[1..])
  }

  function Places(id: Text, o: Overlay): (r: seq<Location>)
  {
    [TargetPlace(o.target), StagingDir(o.binding), MountDir(id)]
  }

  lemma TakeOffStep(ms: seq<Mount>, p: Location, rest: seq<Location>)
    ensures TakeOff(ms, [p] + rest) == if CanUnmount(ms, p) then TakeOff(RemoveMount(ms, Top(ms, p).value), rest) else (ms, false)
  {
    hide CanUnmount, Top;
    assert ([p] + rest)[1..] == rest;
  }

  lemma QuietUnmount(k: Kernel, p: Location, d: Device, at: nat)
    ensures Unmount(k, p, Quiet(d)(at)) ==
            if CanUnmount(k.mounts, p) then (k.(mounts := RemoveMount(k.mounts, Top(k.mounts, p).value)), true) else (k, false)
  {
  }

  /** Aborting an image with one overlay, when no call fails of itself. */
  lemma AbortTakesOff(s: System, id: Text, o: Overlay, d: Device)
    requires id in s.manager.images && s.manager.images[id].overlays == [o]
    ensures var (r, reply) := Abort(s, id, Quiet(d));
            var (ms, ok) := TakeOff(s.kernel.mounts, Places(id, o));
            && r.kernel == s.kernel.(mounts := ms)
            && r.manager.images == s.manager.images - {id}
            && reply == if ok then Answer(ReadyFor(AbortsBuild, id)) else Failed(RollbackFailed)
  {
    hide Unmount, CanUnmount, Top, RemoveMount, TargetPlace, StagingDir, MountDir;
    var k := s.kernel;
    var p, st, dir := TargetPlace(o.target), StagingDir(o.binding), MountDir(id);
    TakeOffStep(k.mounts, p, [st, dir]);
    QuietUnmount(k, p, d, 2);
    if CanUnmount(k.mounts, p) {
      var k1 := Unmount(k, p, Quiet(d)(2)).0;
      TakeOffStep(k1.mounts, st, [dir]);
      QuietUnmount(k1, st, d, 3);
      if CanUnmount(k1.mounts, st) {
        var k2 := Unmount(k1, st, Quiet(d)(3)).0;
        TakeOffStep(k2.mounts, dir, []);
        QuietUnmount(k2, dir, d, 0);
        assert k2.(mounts := k2.mounts) == k2;
      }
    }
    assert Places(id, o) == [p] + [st, dir] && [st, dir] == [st] + [dir] && [dir] == [dir] + [];
  }

  lemma {:induction false} TakeOffOnlyRemoves(ms: seq<Mount>, places: seq<Location>)
    ensures forall m :: m in TakeOff(ms, places).0 ==> m in ms
    ensures forall m :: m in ms && m.point !in places ==> m in TakeOff(ms, places).0
    decreases |places|
  {
    hide CanUnmount, RemoveMount;
    if places != [] && CanUnmount(ms, places[0]) {
      var i := UnmountsAt(ms, places[0]);
      RemoveLeavesOthers(ms, i);
      TakeOffOnlyRemoves(RemoveMount(ms, i), places[1..]);
      assert places[0] in places && forall p :: p in places[1..] ==> p in places;
    }
  }

  // ----- Two images with an overlay each -----

  /** Two validated images, the first without overlays, in a table where nothing hides or blocks their mounts. */
  ghost predicate TwoImages(env: Env, s: System, id1: Text, b1: Text, t1: Text, id2: Text, b2: Text, t2: Text)
  {
    && Inv(env, s) && id1 != id2 && b1 != b2 && t1 != t2
    && CanBind(s, id1, b1, t1) && CanBind(s, id2, b2, t2)
    && s.manager.images[id1].overlays == []
    && Uncovered(s.kernel.mounts) && CanUnmount(s.kernel.mounts, MountDir(id1))
    && OverlaysOk(env, s.kernel) && NoneFor(s.kernel.mounts, id1)
  }

  /** The table with both overlays, each on its staging mount. */
  function Both(ms: seq<Mount>, b1: Text, o1: Mount, b2: Text, o2: Mount): (r: seq<Mount>)
  {
    ms + [Plain(StagingDir(b1)), o1, Plain(StagingDir(b2)), o2]
  }

  lemma BothBound(env: Env, s: System, id1: Text, b1: Text, t1: Text, id2: Text, b2: Text, t2: Text, d: Device)
    returns (s2: System, o1: Mount, o2: Mount)
    requires TwoImages(env, s, id1, b1, t1, id2, b2, t2)
    ensures s2 == BindOverlay(BindOverlay(s, id1, b1, t1, Quiet(d)).0, id2, b2, t2, Quiet(d)).0
    ensures s2.kernel == s.kernel.(mounts := Both(s.kernel.mounts, b1, o1, b2, o2)) && Inv(env, s2)
    ensures o1.OverlayOn? && o1.point == TargetPlace(t1) && o1.image == id1
    ensures o1.lower == SourceOf(s.manager.images[id1].device) && o1.key == s.manager.images[id1].key
    ensures o2.OverlayOn? && o2.point == TargetPlace(t2) && o2.image == id2 && o2.key == s.manager.images[id2].key
    ensures o2.lower == SourceOf(s.manager.images[id2].device) <==> Clear(t1)
    ensures id1 in s2.manager.images && s2.manager.images[id1].overlays == [Overlay(b1, t1)]
    ensures id2 in s2.manager.images
    ensures s2.manager.images[id2] == s.manager.images[id2].(overlays := s.manager.images[id2].overlays + [Overlay(b2, t2)])
  {
    hide Inv, Uncovered, OverlaysOk, NoneFor, StagingDir, TargetPlace, MountDir, LowerOf, CanBind, Clear, BindOverlay, CanUnmount;
    CanBindFacts(s, id1, b1, t1);
    CanBindFacts(s, id2, b2, t2);
    ValidatedIsFrozen(env, s, id1, b1, t1);
    ValidatedIsFrozen(env, s, id2, b2, t2);
    QuietBind(s, id1, b1, t1, d);
    CanBindNext(s, id1, b1, t1, id2, b2, t2);
    var s1, ms := AfterBind(s, id1, b1, t1), s.kernel.mounts;
    QuietBind(s1, id2, b2, t2, d);
    BindOverlayKeepsInv(env, s, id1, b1, t1, Quiet(d));
    BindOverlayKeepsInv(env, s1, id2, b2, t2, Quiet(d));
    o1 := NewOverlay(ms, id1, s.manager.images[id1].key, b1, t1);
    o2 := NewOverlay(s1.kernel.mounts, id2, s.manager.images[id2].key, b2, t2);
    s2 := AfterBind(s1, id2, b2, t2);
    SecondOverlayIsRightIff(s, id1, b1, t1, id2, b2, t2, d);
    StagedIsUncovered(ms, b1);
    UncoveredLower(ms + [Plain(StagingDir(b1))], id1, s.manager.images[id1].device);
    assert s2.kernel.mounts == Both(ms, b1, o1, b2, o2);
  }

  lemma ValidatedIsFrozen(env: Env, s: System, id: Text, binding: Text, target: Text)
    requires Inv(env, s) && CanBind(s, id, binding, target)
    ensures var image := s.manager.images[id];
            FrozenMount(id, image.device) in s.kernel.mounts && HasKey(env, s.kernel, image.device, image.key)
  {
    hide HasKey, AcceptableTarget;
    TrackedIsOk(env, s, id);
  }

  lemma StagedIsUncovered(ms: seq<Mount>, binding: Text)
    requires Uncovered(ms)
    ensures Uncovered(ms + [Plain(StagingDir(binding))])
  {
    hide StagingDir, MountDir, SourcePath;
    forall x
      ensures !(StagingDir(binding) <= SourcePath(x))
    {
      StagingIsApart(binding, x);
    }
  }

  // ----- Different places -----

  /** The first overlay comes off, or nothing does. */
  lemma ApartTakesOwn(ms: seq<Mount>, b1: Text, o1: Mount, b2: Text, o2: Mount, p: Location, rest: seq<Location>)
    requires o1.OverlayOn? && o2.OverlayOn? && o1.point == p && o2.point != p && StagingDir(b2) != p
    ensures var ns := Both(ms, b1, o1, b2, o2);
            var r := TakeOff(ns, [p] + rest);
            r == (ns, false) || r == TakeOff(ms + [Plain(StagingDir(b1)), Plain(StagingDir(b2)), o2], rest)
  {
    hide StagingDir, TakeOff, Top;
    var ns := Both(ms, b1, o1, b2, o2);
    TakeOffStep(ns, p, rest);
    if CanUnmount(ns, p) {
      var i := UnmountsAt(ns, p);
      assert ns[|ms| + 1] == o1 && ns[|ms| + 2] == Plain(StagingDir(b2)) && ns[|ms| + 3] == o2;
      assert o1.point <= p;
      assert i == |ms| + 1;
      assert RemoveMount(ns, i) == ms + [Plain(StagingDir(b1)), Plain(StagingDir(b2)), o2];
    }
  }

  // ----- The same place -----

  lemma SharedTakesOther(ms: seq<Mount>, b1: Text, o1: Mount, b2: Text, o2: Mount, p: Location, rest: seq<Location>)
    requires o1.OverlayOn? && o2.OverlayOn? && o2.point == p
    ensures TakeOff(Both(ms, b1, o1, b2, o2), [p] + rest) == TakeOff(ms + [Plain(StagingDir(b1)), o1, Plain(StagingDir(b2))], rest)
  {
    hide StagingDir, TakeOff, Top;
    var ns := Both(ms, b1, o1, b2, o2);
    TopIs(ns, p, |ms| + 3);
    TakeOffStep(ns, p, rest);
    assert RemoveMount(ns, |ms| + 3) == ms + [Plain(StagingDir(b1)), o1, Plain(StagingDir(b2))];
  }

  lemma AboveStaging(p: Location, binding: Text)
    requires !(OVERLAY_ROOT <= p)
    ensures p <= StagingDir(binding) <==> p <= OVERLAY_ROOT
    ensures !(StagingDir(binding) <= p)
  {
    var st := StagingDir(binding);
    assert OVERLAY_ROOT <= st;
    assert p <= st && |p| >= 2 ==> OVERLAY_ROOT <= p;
    if p <= st {
      assert p == st[..|p|] == OVERLAY_ROOT[..|p|];
    }
  }

  lemma StagingsAreApart(b1: Text, b2: Text)
    requires b1 != b2
    ensures !(StagingDir(b1) <= StagingDir(b2))
  {
    if StagingDir(b1) == StagingDir(b2) { StagingDirInjective(b1, b2); }
    assert |StagingDir(b1)| == |StagingDir(b2)|;
  }

  /** The staging mount comes off unless the first overlay hides it. */
  lemma SharedStaging(ms: seq<Mount>, b1: Text, o1: Mount, b2: Text, rest: seq<Location>)
    requires b1 != b2 && !(OVERLAY_ROOT <= o1.point)
    ensures var ns := ms + [Plain(StagingDir(b1)), o1, Plain(StagingDir(b2))];
            TakeOff(ns, [StagingDir(b1)] + rest) ==
            if o1.point <= OVERLAY_ROOT then (ns, false) else TakeOff(ms + [o1, Plain(StagingDir(b2))], rest)
  {
    hide StagingDir, TakeOff, Top, OVERLAY_ROOT;
    var ns, st := ms + [Plain(StagingDir(b1)), o1, Plain(StagingDir(b2))], StagingDir(b1);
    AboveStaging(o1.point, b1);
    StagingsAreApart(b2, b1);
    StagingsAreApart(b1, b2);
    TakeOffStep(ns, st, rest);
    if o1.point <= OVERLAY_ROOT {
      TopIs(ns, st, |ms| + 1);
    } else {
      TopIs(ns, st, |ms|);
      assert RemoveMount(ns, |ms|) == ms + [o1, Plain(StagingDir(b2))];
    }
  }

  lemma AboveMountDir(p: Location, id: Text)
    requires !(CACHE_ROOT <= p)
    ensures p <= MountDir(id) <==> p <= CACHE_ROOT
    ensures !(MountDir(id) <= p)
  {
    hide CACHE_ROOT;
    var dir := MountDir(id);
    assert CACHE_ROOT <= dir;
    assert p <= dir && |p| >= |CACHE_ROOT| ==> CACHE_ROOT <= p;
    assert dir <= p ==> CACHE_ROOT <= p;
    if p <= dir {
      assert p == dir[..|p|] == CACHE_ROOT[..|p|];
    }
    if p <= CACHE_ROOT {
      assert dir[..|p|] == CACHE_ROOT[..|p|];
    }
  }

  /** The image comes off, from under its own overlay, unless that overlay hides it. */
  lemma SharedDir(ms: seq<Mount>, id: Text, o1: Mount, b2: Text)
    requires CanUnmount(ms, MountDir(id)) && !(CACHE_ROOT <= o1.point)
    ensures var ns := ms + [o1, Plain(StagingDir(b2))];
            TakeOff(ns, [MountDir(id)]) ==
            if o1.point <= CACHE_ROOT then (ns, false)
            else (RemoveMount(ms, Top(ms, MountDir(id)).value) + [o1, Plain(StagingDir(b2))], true)
  {
    hide StagingDir, MountDir, TakeOff, Top, CACHE_ROOT;
    var ns, dir := ms + [o1, Plain(StagingDir(b2))], MountDir(id);
    AboveMountDir(o1.point, id);
    CacheAnswers.StagingOff(b2, id);
    assert [dir] + [] == [dir];
    TakeOffStep(ns, dir, []);
    if o1.point <= CACHE_ROOT {
      TopIs(ns, dir, |ms|);
    } else {
      var i := UnmountsAt(ms, dir);
      forall j | i < j < |ns|
        ensures !(ns[j].point <= dir) && !(dir <= ns[j].point)
      {
        if j < |ms| { assert ns[j] == ms[j]; }
      }
      TopIs(ns, dir, i);
      assert RemoveMount(ns, i) == RemoveMount(ms, i) + [o1, Plain(StagingDir(b2))];
      NothingToTakeOff(RemoveMount(ns, i));
    }
  }

  lemma NothingToTakeOff(ms: seq<Mount>)
    ensures TakeOff(ms, []) == (ms, true)
  {
  }

  /** What is left when two overlays share a place and the first image is aborted. */
  function LeftOver(ms: seq<Mount>, id1: Text, b1: Text, o1: Mount, b2: Text): (r: (seq<Mount>, bool))
    requires CanUnmount(ms, MountDir(id1))
  {
    var staging := Plain(StagingDir(b2));
    if o1.point <= OVERLAY_ROOT then (ms + [Plain(StagingDir(b1)), o1, staging], false)
    else if o1.point <= CACHE_ROOT then (ms + [o1, staging], false)
    else (RemoveMount(ms, Top(ms, MountDir(id1)).value) + [o1, staging], true)
  }

  lemma SharedPlace(ms: seq<Mount>, id1: Text, b1: Text, t1: Text, o1: Mount, b2: Text, o2: Mount)
    requires o1.OverlayOn? && o2.OverlayOn? && o1.point == o2.point == TargetPlace(t1) && b1 != b2
    requires AcceptableTarget(t1) && CanUnmount(ms, MountDir(id1))
    ensures TakeOff(Both(ms, b1, o1, b2, o2), Places(id1, Overlay(b1, t1))) == LeftOver(ms, id1, b1, o1, b2)
  {
    hide StagingDir, MountDir, TargetPlace, TakeOff, CanUnmount, RemoveMount, AcceptableTarget;
    TargetOutside(t1);
    var p, st, dir := TargetPlace(t1), StagingDir(b1), MountDir(id1);
    assert Places(id1, Overlay(b1, t1)) == [p] + ([st] + [dir]);
    SharedTakesOther(ms, b1, o1, b2, o2, p, [st] + [dir]);
    SharedStaging(ms, b1, o1, b2, [dir]);
    SharedDir(ms, id1, o1, b2);
  }

  lemma TargetOutside(target: Text)
    requires AcceptableTarget(target)
    ensures !(CACHE_ROOT <= TargetPlace(target)) && !(OVERLAY_ROOT <= TargetPlace(target))
  {
  }

  // ----- The exact condition -----

  /** Whether the overlays of two images survive an abort of the first, by their places alone. */
  predicate Compatible(p1: Location, p2: Location)
  {
    if p1 <= CACHE_ROOT then p1 == p2 else p1 != p2 || p1 <= OVERLAY_ROOT
  }

  lemma SameDevicesSameKeys(env: Env, k: Kernel, l: Kernel, d: Device, key: Text)
    requires k.devices == l.devices && HasKey(env, k, d, key)
    ensures HasKey(env, l, d, key)
  {
  }

  lemma StillOk(env: Env, k: Kernel, l: Kernel, e: set<Text>, m: Mount)
    requires Keeps(k, l, e) && m.OverlayOn? && m.image !in e && OverlayOk(env, k, m)
    ensures OverlayOk(env, l, m)
  {
    hide TreeKey, Coherent;
  }

  lemma NoOverlayAtPlaces(id: Text, b1: Text, t1: Text, p2: Location)
    requires !(CACHE_ROOT <= p2) && !(OVERLAY_ROOT <= p2) && TargetPlace(t1) != p2
    ensures p2 !in Places(id, Overlay(b1, t1))
  {
    hide TargetPlace;
    assert OVERLAY_ROOT <= StagingDir(b1) && CACHE_ROOT <= MountDir(id);
  }

  lemma OldOverlaysStayOk(env: Env, k: Kernel, ns: seq<Mount>, l: Kernel, id1: Text, m: Mount)
    requires OverlaysOk(env, k) && NoneFor(k.mounts, id1) && m in k.mounts && m.OverlayOn?
    requires forall w :: w in k.mounts ==> w in ns
    requires Keeps(k.(mounts := ns), l, {id1})
    ensures OverlayOk(env, l, m)
  {
    hide TreeKey, Keeps;
    assert OverlayOk(env, k, m) && m.image != id1;
    assert OverlayOk(env, k.(mounts := ns), m);
    StillOk(env, k.(mounts := ns), l, {id1}, m);
  }

  /** Different places: only the second overlay can be wrong, and only because of what the first one hid. */
  lemma ApartAfterAbort(env: Env, s: System, id1: Text, b1: Text, t1: Text,
                        id2: Text, b2: Text, t2: Text, o1: Mount, o2: Mount, l: Kernel)
    requires TwoImages(env, s, id1, b1, t1, id2, b2, t2) && TargetPlace(t1) != TargetPlace(t2)
    requires o1.OverlayOn? && o1.point == TargetPlace(t1) && o1.image == id1
    requires o1.lower == SourceOf(s.manager.images[id1].device) && o1.key == s.manager.images[id1].key
    requires o2.OverlayOn? && o2.point == TargetPlace(t2) && o2.image == id2 && o2.key == s.manager.images[id2].key
    requires o2.lower == SourceOf(s.manager.images[id2].device) <==> Clear(t1)
    requires var ns := Both(s.kernel.mounts, b1, o1, b2, o2);
             l == s.kernel.(mounts := TakeOff(ns, Places(id1, Overlay(b1, t1))).0) && Keeps(s.kernel.(mounts := ns), l, {id1})
    ensures OverlaysOk(env, l) <==> Clear(t1)
  {
    hide Inv, Uncovered, CanUnmount, StagingDir, MountDir, TargetPlace, TakeOff, Keeps, HasKey, AcceptableTarget, Clear;
    var ms := s.kernel.mounts;
    var ns := Both(ms, b1, o1, b2, o2);
    var p, rest := TargetPlace(t1), [StagingDir(b1), MountDir(id1)];
    CanBindFacts(s, id2, b2, t2);
    ValidatedIsFrozen(env, s, id1, b1, t1);
    ValidatedIsFrozen(env, s, id2, b2, t2);
    TargetIsNotStaging(t1, b2);
    assert Places(id1, Overlay(b1, t1)) == [p] + rest;
    ApartTakesOwn(ms, b1, o1, b2, o2, p, rest);
    TakeOffOnlyRemoves(ns, Places(id1, Overlay(b1, t1)));
    TakeOffOnlyRemoves(ms + [Plain(StagingDir(b1)), Plain(StagingDir(b2)), o2], rest);
    NoOverlayAtPlaces(id1, b1, t1, TargetPlace(t2));
    SecondIsRight(env, s, ns, l, id1, id2, o2);
    assert o2 in l.mounts;
    if o2.lower == SourceOf(s.manager.images[id2].device) {
      forall m | m in l.mounts && m.OverlayOn?
        ensures OverlayOk(env, l, m)
      {
        if m in ms {
          OldOverlaysStayOk(env, s.kernel, ns, l, id1, m);
        } else if m != o2 {
          assert m == o1 && l.mounts == ns;
          SameDevicesSameKeys(env, s.kernel, l, s.manager.images[id1].device, o1.key);
          assert OverlayOk(env, l, o1);
        }
      }
    }
  }

  /** The second overlay is right exactly if its lower directory is its image's device. */
  lemma SecondIsRight(env: Env, s: System, ns: seq<Mount>, l: Kernel, id1: Text, id2: Text, o2: Mount)
    requires id1 != id2 && id2 in s.manager.images && o2.OverlayOn? && o2.image == id2 && o2.key == s.manager.images[id2].key
    requires FrozenMount(id2, s.manager.images[id2].device) in ns && HasKey(env, s.kernel, s.manager.images[id2].device, o2.key)
    requires Uncovered(s.kernel.mounts) && (forall w :: w in l.mounts && w.Disk? ==> w in s.kernel.mounts)
    requires FrozenMount(id2, s.manager.images[id2].device) in s.kernel.mounts && Keeps(s.kernel.(mounts := ns), l, {id1})
    ensures OverlayOk(env, l, o2) <==> o2.lower == SourceOf(s.manager.images[id2].device)
  {
    hide TreeKey, Uncovered, Coherent;
    var d := s.manager.images[id2].device;
    if o2.lower.SourceOf? && FrozenMount(id2, o2.lower.device) in l.mounts {
      CacheOverlayRuns.OneDevicePerImage(s.kernel.mounts, id2, o2.lower.device, d);
    }
  }

  /** The same place: the first overlay is left behind, and is wrong exactly if its image came off under it. */
  lemma SharedAfterAbort(env: Env, s: System, id1: Text, b1: Text, t1: Text,
                         id2: Text, b2: Text, t2: Text, o1: Mount, o2: Mount, l: Kernel)
    requires TwoImages(env, s, id1, b1, t1, id2, b2, t2) && TargetPlace(t1) == TargetPlace(t2)
    requires o1.OverlayOn? && o1.point == TargetPlace(t1) && o1.image == id1
    requires o1.lower == SourceOf(s.manager.images[id1].device) && o1.key == s.manager.images[id1].key
    requires o2.OverlayOn? && o2.point == TargetPlace(t2) && o2.image == id2
    requires var ns := Both(s.kernel.mounts, b1, o1, b2, o2);
             l == s.kernel.(mounts := TakeOff(ns, Places(id1, Overlay(b1, t1))).0) && Keeps(s.kernel.(mounts := ns), l, {id1})
    ensures OverlaysOk(env, l) <==> TargetPlace(t1) <= CACHE_ROOT || TargetPlace(t1) <= OVERLAY_ROOT
    ensures o1 in l.mounts && (OverlayOk(env, l, o1) <==> OverlaysOk(env, l))
    ensures l.mounts == LeftOver(s.kernel.mounts, id1, b1, o1, b2).0
  {
    hide Inv, Uncovered, CanUnmount, StagingDir, MountDir, TargetPlace, TakeOff, Keeps, HasKey, AcceptableTarget, RemoveMount,
      CACHE_ROOT, OVERLAY_ROOT;
    var ms := s.kernel.mounts;
    var ns, dir := Both(ms, b1, o1, b2, o2), MountDir(id1);
    BindIsAcceptable(s, id1, b1, t1);
    ValidatedIsFrozen(env, s, id1, b1, t1);
    SharedPlace(ms, id1, b1, t1, o1, b2, o2);
    var i := UnmountsAt(ms, dir);
    RemoveLeavesOthers(ms, i);
    OnlyMountThere(ms, id1, i);
    SameDevicesSameKeys(env, s.kernel, l, s.manager.images[id1].device, o1.key);
    assert OverlayOk(env, l, o1) <==> FrozenMount(id1, s.manager.images[id1].device) in l.mounts;
    forall m | m in l.mounts && m.OverlayOn? && m != o1
      ensures OverlayOk(env, l, m)
    {
      assert m in ms;
      OldOverlaysStayOk(env, s.kernel, ns, l, id1, m);
    }
  }

  lemma BindIsAcceptable(s: System, id: Text, binding: Text, target: Text)
    requires CanBind(s, id, binding, target)
    ensures AcceptableTarget(target)
  {
  }

  lemma OnlyMountThere(ms: seq<Mount>, id: Text, i: nat)
    requires Uncovered(ms) && i < |ms| && ms[i].point == MountDir(id)
    ensures forall m :: m in RemoveMount(ms, i) ==> m.point != MountDir(id)
  {
    hide Uncovered, MountDir, Top, SourcePath;
    var rs := RemoveMount(ms, i);
    forall j | 0 <= j < |rs|
      ensures rs[j].point != MountDir(id)
    {
      var a := if j < i then j else j + 1;
      assert rs[j] == ms[a];
      if ms[a].point == MountDir(id) {
        LeadsToItsMount(ms, id, a);
        LeadsToItsMount(ms, id, i);
        assert false;
      }
    }
  }

  /**
   Two validated images, the first without overlays, each given one overlay on any accepted targets, and then the first
   image aborted, with no call failing of itself: every overlay still mounted is right if and only if the two places are
   compatible.
   */
  lemma AbortLeavesOverlaysRightIff(env: Env, s: System, id1: Text, b1: Text, t1: Text,
                                    id2: Text, b2: Text, t2: Text, d: Device)
    requires TwoImages(env, s, id1, b1, t1, id2, b2, t2)
    ensures var s2 := BindOverlay(BindOverlay(s, id1, b1, t1, Quiet(d)).0, id2, b2, t2, Quiet(d)).0;
            var r := Abort(s2, id1, Quiet(d)).0;
            OverlaysOk(env, r.kernel) <==> Compatible(TargetPlace(t1), TargetPlace(t2))
  {
    hide Inv, TwoImages, OverlaysOk, TargetPlace, Keeps, Abort, BindOverlay, TakeOff, Places, CACHE_ROOT, OVERLAY_ROOT;
    var s2, o1, o2 := BothBound(env, s, id1, b1, t1, id2, b2, t2, d);
    var r := Abort(s2, id1, Quiet(d)).0;
    AbortTakesOff(s2, id1, Overlay(b1, t1), d);
    AbortKeepsInv(env, s2, id1, Quiet(d));
    if TargetPlace(t1) == TargetPlace(t2) {
      SharedAfterAbort(env, s, id1, b1, t1, id2, b2, t2, o1, o2, r.kernel);
    } else {
      ApartAfterAbort(env, s, id1, b1, t1, id2, b2, t2, o1, o2, r.kernel);
    }
  }

  /** An overlay of the image is mounted there, and does not show the image. */
  ghost predicate WrongOverlay(env: Env, k: Kernel, id: Text, p: Location)
  {
    exists m :: m in k.mounts && m.OverlayOn? && m.image == id && m.point == p && !OverlayOk(env, k, m)
  }

  /**
   Two spellings of one place, off the way to the cache and staging directories: the abort answers Ready although it took
   the other image's overlay and left its own, without its image.
   */
  lemma AbortTakesTheWrongOverlay(env: Env, s: System, id1: Text, b1: Text, t1: Text,
                                  id2: Text, b2: Text, t2: Text, d: Device)
    requires TwoImages(env, s, id1, b1, t1, id2, b2, t2) && TargetPlace(t1) == TargetPlace(t2)
    requires Clear(t1) && !(TargetPlace(t1) <= OVERLAY_ROOT) && NoneFor(s.kernel.mounts, id2)
    ensures var s2 := BindOverlay(BindOverlay(s, id1, b1, t1, Quiet(d)).0, id2, b2, t2, Quiet(d)).0;
            var (r, reply) := Abort(s2, id1, Quiet(d));
            && reply == Answer(ReadyFor(AbortsBuild, id1))
            && id1 !in r.manager.images
            && id2 in r.manager.images && Overlay(b2, t2) in r.manager.images[id2].overlays && NoneFor(r.kernel.mounts, id2)
            && WrongOverlay(env, r.kernel, id1, TargetPlace(t1))
  {
    hide Inv, TargetPlace, Keeps, Abort, BindOverlay, TakeOff, Places, CACHE_ROOT, OVERLAY_ROOT, Uncovered, CanUnmount, RemoveMount,
      StagingDir, MountDir, OverlaysOk, OverlayOk, CanBind;
    var s2, o1, o2 := BothBound(env, s, id1, b1, t1, id2, b2, t2, d);
    var r := Abort(s2, id1, Quiet(d)).0;
    AbortTakesOff(s2, id1, Overlay(b1, t1), d);
    AbortKeepsInv(env, s2, id1, Quiet(d));
    SharedAfterAbort(env, s, id1, b1, t1, id2, b2, t2, o1, o2, r.kernel);
    BindIsAcceptable(s, id1, b1, t1);
    SharedPlace(s.kernel.mounts, id1, b1, t1, o1, b2, o2);
    var i := UnmountsAt(s.kernel.mounts, MountDir(id1));
    RemoveLeavesOthers(s.kernel.mounts, i);
    assert Overlay(b2, t2) in s2.manager.images[id2].overlays;
  }

  // ----- The failing runs -----

  /** Two devices with sealed images, in a system without mounts, and the hits that open them. */
  ghost predicate TwoHits(env: Env, k: Kernel, h1: Request, d1: Device, tree1: Tree, h2: Request, d2: Device, tree2: Tree)
  {
    && k.mounts == [] && d1 != d2
    && Sealed(env, k, h1, d1, tree1) && Sealed(env, k, h2, d2, tree2) && h1.image != h2.image
  }

  ghost predicate Sealed(env: Env, k: Kernel, h: Request, d: Device, tree: Tree)
  {
    && h.PrepareHit? && Valid(h)
    && Usable(k, d, h.serial, h.size, true)
    && HoldsSealed(k.devices[d].content, tree, h.key)
    && TreeKey(env.hash, tree, env.lists(tree)) == Some(h.key)
  }

  function HitImage(h: Request, d: Device): (image: Image)
    requires h.PrepareHit?
  {
    Image(d, h.size, h.key, Validated, [])
  }

  /** The state after both hits. */
  function BothOpen(k: Kernel, h1: Request, d1: Device, h2: Request, d2: Device): (s: System)
    requires h1.PrepareHit? && h2.PrepareHit?
  {
    System(k.(mounts := [FrozenMount(h1.image, d1), FrozenMount(h2.image, d2)]),
           Manager(map[h1.image := HitImage(h1, d1)][h2.image := HitImage(h2, d2)], {}, {}))
  }

  lemma HitServed(env: Env, s: System, k: Kernel, h: Request, d: Device, tree: Tree)
    requires Sealed(env, k, h, d, tree) && s.kernel.devices == k.devices && h.image !in s.manager.images
    requires !Mounted(s.kernel.mounts, d) && NoneAt(s.kernel.mounts, MountDir(h.image))
    ensures Serve(env, s, Ask(h, [], Quiet(d))) ==
            (System(s.kernel.(mounts := s.kernel.mounts + [FrozenMount(h.image, d)]),
                    s.manager.(images := s.manager.images[h.image := HitImage(h, d)])),
             Answer(Ready(PreparesHit, h.image, None, Some(h.key), None)))
  {
    hide MountDir, OpenHit, TreeKey, SentinelText, ValidDigest, ValidToken, ValidImageSize, Mounted, NoneAt;
    HitAfterBuild(env, s, h.image, h.serial, h.size, h.key, d, tree);
  }

  lemma HitsServed(env: Env, k: Kernel, h1: Request, d1: Device, tree1: Tree, h2: Request, d2: Device, tree2: Tree)
    requires TwoHits(env, k, h1, d1, tree1, h2, d2, tree2)
    ensures var start, asks := System(k, NO_IMAGES), [Ask(h1, [], Quiet(d1)), Ask(h2, [], Quiet(d2))];
            Run(env, start, asks) == BothOpen(k, h1, d1, h2, d2) && AllReady(Replies(env, start, asks))
  {
    hide Sealed, Run, Replies, Serve, MountDir;
    var start, a, b := System(k, NO_IMAGES), Ask(h1, [], Quiet(d1)), Ask(h2, [], Quiet(d2));
    SealedIsAHit(env, k, h1, d1, tree1);
    SealedIsAHit(env, k, h2, d2, tree2);
    HitServed(env, start, k, h1, d1, tree1);
    var s1 := Serve(env, start, a).0;
    if MountDir(h1.image) == MountDir(h2.image) { MountDirInjective(h1.image, h2.image); }
    HitServed(env, s1, k, h2, d2, tree2);
    RunOne(env, start, a);
    RunOne(env, s1, b);
    RunConcat(env, start, [a], [b]);
    assert [a] + [b] == [a, b];
    assert s1.kernel.mounts == [FrozenMount(h1.image, d1)];
    assert s1.kernel.mounts + [FrozenMount(h2.image, d2)] == BothOpen(k, h1, d1, h2, d2).kernel.mounts;
  }

  lemma SealedIsAHit(env: Env, k: Kernel, h: Request, d: Device, tree: Tree)
    requires Sealed(env, k, h, d, tree)
    ensures h.PrepareHit? && ValidDigest(h.image)
  {
    hide ValidDigest, TreeKey, SentinelText;
  }

  lemma OpenImages(env: Env, k: Kernel, h1: Request, d1: Device, tree1: Tree, h2: Request, d2: Device, tree2: Tree,
                   b1: Text, t1: Text, b2: Text, t2: Text)
    requires TwoHits(env, k, h1, d1, tree1, h2, d2, tree2)
    requires b1 != b2 && t1 != t2 && AcceptableTarget(t1) && AcceptableTarget(t2)
    ensures TwoImages(env, BothOpen(k, h1, d1, h2, d2), h1.image, b1, t1, h2.image, b2, t2)
  {
    hide Sealed, Run, Inv, MountDir, SourcePath, StagingDir, AcceptableTarget, TreeKey;
    SealedIsAHit(env, k, h1, d1, tree1);
    SealedIsAHit(env, k, h2, d2, tree2);
    HitsServed(env, k, h1, d1, tree1, h2, d2, tree2);
    StartKeepsInv(env, k);
    RunKeepsInv(env, System(k, NO_IMAGES), [Ask(h1, [], Quiet(d1)), Ask(h2, [], Quiet(d2))]);
    var ms := BothOpen(k, h1, d1, h2, d2).kernel.mounts;
    MountDirsAreApart(h2.image, h1.image);
    if MountDir(h1.image) == MountDir(h2.image) { MountDirInjective(h1.image, h2.image); }
    TowardsSource(MountDir(h1.image), h1.image);
    forall x | ms[0].point == MountDir(x)
      ensures x == h1.image
    {
      MountDirInjective(x, h1.image);
    }
    SameLengths(h1.image, h2.image);
    TopIs(ms, MountDir(h1.image), 0);
    CacheAnswers.StagingOff(b1, h1.image);
    CacheAnswers.StagingOff(b2, h1.image);
    CacheAnswers.StagingOff(b1, h2.image);
    CacheAnswers.StagingOff(b2, h2.image);
  }

  lemma SameLengths(a: Text, b: Text)
    requires a != b
    ensures !(MountDir(a) <= MountDir(b)) && !(MountDir(b) <= MountDir(a))
  {
    if MountDir(a) == MountDir(b) { MountDirInjective(a, b); }
    assert |MountDir(a)| == |MountDir(b)|;
  }

  lemma StartKeepsInv(env: Env, k: Kernel)
    requires k.mounts == []
    ensures Inv(env, System(k, NO_IMAGES))
  {
  }

  // The requests of the runs, and the targets "/a", "/a/" and "/tmp".

  const A: Location := [Ascii("a")]
  const SLASH_A: Text := [SLASH] + Render(A)
  const SLASH_A_SLASH: Text := [SLASH] + Render(A + [[]])
  const SLASH_TMP: Text := [SLASH] + Render(TMP)

  lemma TheTargets()
    ensures SLASH_A == Ascii("/a") && SLASH_A_SLASH == Ascii("/a/") && SLASH_TMP == Ascii("/tmp")
    ensures AcceptableTarget(SLASH_A) && AcceptableTarget(SLASH_A_SLASH) && AcceptableTarget(SLASH_TMP)
    ensures TargetPlace(SLASH_A) == TargetPlace(SLASH_A_SLASH) == A && SLASH_A != SLASH_A_SLASH
    ensures Clear(SLASH_A) && !Clear(SLASH_TMP) && !(A <= OVERLAY_ROOT) && SLASH_A != SLASH_TMP
  {
    hide AcceptableTarget, TargetPlace, Clear;
    assert FileName(Ascii("a")) by { assert Ascii("a")[0] == 0x61; }
    assert Ascii("a")[0] != Ascii("tmp")[0] && Ascii("a")[0] != Ascii("mnt")[0];
    assert A[0] != CACHE_ROOT[0] && A[0] != OVERLAY_ROOT[0];
    AliasedTargets(A);
    SpelledTarget(A);
    TmpIsAcceptedAndCovers();
    TheSpellings();
  }

  lemma TheSpellings()
    ensures SLASH_A == Ascii("/a") && SLASH_A_SLASH == Ascii("/a/") && SLASH_TMP == Ascii("/tmp") && SLASH_A != SLASH_TMP
  {
    var gap: Location := A + [[]];
    assert gap[0] == Ascii("a") && gap[1..] == [[]];
    assert Render(gap) == Ascii("a") + [SLASH] + [];
    assert |SLASH_A| == 2 && |SLASH_A_SLASH| == 3 && |SLASH_TMP| == 4;
    assert SLASH_A == Ascii("/a");
    assert SLASH_A_SLASH == Ascii("/a/");
    assert SLASH_TMP == Ascii("/tmp");
  }

  function BindAsk(id: Text, binding: Text, target: Text): (ask: Ask)
  {
    Ask(MountOverlay(id, binding, target), [], Quiet(0))
  }

  lemma BindServed(env: Env, s: System, id: Text, binding: Text, target: Text)
    requires CanBind(s, id, binding, target) && ValidDigest(id) && ValidToken(binding) && 0 !in target
    ensures Serve(env, s, BindAsk(id, binding, target)) == BindOverlay(s, id, binding, target, Quiet(0))
    ensures BindOverlay(s, id, binding, target, Quiet(0)).1 == Answer(Ready(MountsOverlay, id, Some(binding), None, None))
  {
    hide BindOverlay, NoneAt, StagingDir, TargetPlace, Split, ValidDigest, ValidToken;
    QuietBind(s, id, binding, target, 0);
  }

  lemma NoNuls()
    ensures 0 !in SLASH_A && 0 !in SLASH_A_SLASH && 0 !in SLASH_TMP
  {
    TheSpellings();
  }

  /** Opening both images and binding an overlay of each. */
  function BindBoth(h1: Request, d1: Device, b1: Text, t1: Text, h2: Request, d2: Device, b2: Text, t2: Text): (asks: seq<Ask>)
  {
    [Ask(h1, [], Quiet(d1)), Ask(h2, [], Quiet(d2)), BindAsk(h1.image, b1, t1), BindAsk(h2.image, b2, t2)]
  }

  lemma BindBothServed(env: Env, k: Kernel, h1: Request, d1: Device, tree1: Tree, b1: Text, t1: Text,
                       h2: Request, d2: Device, tree2: Tree, b2: Text, t2: Text)
    requires TwoHits(env, k, h1, d1, tree1, h2, d2, tree2)
    requires b1 != b2 && ValidToken(b1) && ValidToken(b2)
    requires t1 != t2 && AcceptableTarget(t1) && AcceptableTarget(t2) && 0 !in t1 && 0 !in t2
    ensures var start, asks := System(k, NO_IMAGES), BindBoth(h1, d1, b1, t1, h2, d2, b2, t2);
            && TwoImages(env, BothOpen(k, h1, d1, h2, d2), h1.image, b1, t1, h2.image, b2, t2)
            && Run(env, start, asks)
               == BindOverlay(BindOverlay(BothOpen(k, h1, d1, h2, d2), h1.image, b1, t1, Quiet(0)).0, h2.image, b2, t2, Quiet(0)).0
            && AllReady(Replies(env, start, asks))
  {
    hide Sealed, Run, Replies, Serve, BindOverlay, CanBind, Inv, Uncovered, CanUnmount, OverlaysOk, NoneFor, ValidToken, ValidDigest,
      AcceptableTarget, BindAsk;
    SealedIsAHit(env, k, h1, d1, tree1);
    SealedIsAHit(env, k, h2, d2, tree2);
    HitsServed(env, k, h1, d1, tree1, h2, d2, tree2);
    OpenImages(env, k, h1, d1, tree1, h2, d2, tree2, b1, t1, b2, t2);
    var start, s := System(k, NO_IMAGES), BothOpen(k, h1, d1, h2, d2);
    var hits := [Ask(h1, [], Quiet(d1)), Ask(h2, [], Quiet(d2))];
    var bind1, bind2 := BindAsk(h1.image, b1, t1), BindAsk(h2.image, b2, t2);
    BindServed(env, s, h1.image, b1, t1);
    QuietBind(s, h1.image, b1, t1, 0);
    CanBindNext(s, h1.image, b1, t1, h2.image, b2, t2);
    var s1 := BindOverlay(s, h1.image, b1, t1, Quiet(0)).0;
    BindServed(env, s1, h2.image, b2, t2);
    RunOne(env, s, bind1);
    RunOne(env, s1, bind2);
    RunConcat(env, start, hits, [bind1]);
    RunConcat(env, start, hits + [bind1], [bind2]);
    assert hits + [bind1] + [bind2] == BindBoth(h1, d1, b1, t1, h2, d2, b2, t2);
  }

  /**
   The run in which an image bound at "/a" is aborted after another image was bound at "/a/": every reply is Ready, the
   overlay that went belongs to the other image, which is still registered, and the one that stayed shows an image
   that is neither mounted nor tracked.
   */
  lemma AbortAfterAliasFails(env: Env, k: Kernel, h1: Request, d1: Device, tree1: Tree, b1: Text,
                             h2: Request, d2: Device, tree2: Tree, b2: Text)
    requires TwoHits(env, k, h1, d1, tree1, h2, d2, tree2)
    requires b1 != b2 && ValidToken(b1) && ValidToken(b2)
    ensures var start := System(k, NO_IMAGES);
            var asks := BindBoth(h1, d1, b1, Ascii("/a"), h2, d2, b2, Ascii("/a/")) + [Ask(AbortBuild(h1.image), [], Quiet(0))];
            var r := Run(env, start, asks);
            && AllReady(Replies(env, start, asks))
            && h1.image !in r.manager.images
            && h2.image in r.manager.images && Overlay(b2, Ascii("/a/")) in r.manager.images[h2.image].overlays
            && NoneFor(r.kernel.mounts, h2.image)
            && WrongOverlay(env, r.kernel, h1.image, A)
  {
    hide Sealed, Run, Replies, Serve, BindOverlay, Abort, TwoImages, WrongOverlay, ValidToken, ValidDigest, AcceptableTarget, BindBoth, TargetPlace,
      Clear, OVERLAY_ROOT;
    SealedIsAHit(env, k, h1, d1, tree1);
    SealedIsAHit(env, k, h2, d2, tree2);
    TheTargets();
    NoNuls();
    var start, s := System(k, NO_IMAGES), BothOpen(k, h1, d1, h2, d2);
    var asks, ask := BindBoth(h1, d1, b1, SLASH_A, h2, d2, b2, SLASH_A_SLASH), Ask(AbortBuild(h1.image), [], Quiet(0));
    BindBothServed(env, k, h1, d1, tree1, b1, SLASH_A, h2, d2, tree2, b2, SLASH_A_SLASH);
    AbortTakesTheWrongOverlay(env, s, h1.image, b1, SLASH_A, h2.image, b2, SLASH_A_SLASH, 0);
    var s2 := Run(env, start, asks);
    AbortServed(env, s2, h1.image);
    RunOne(env, s2, ask);
    RunConcat(env, start, asks, [ask]);
  }

  lemma AbortServed(env: Env, s: System, id: Text)
    requires ValidDigest(id)
    ensures Serve(env, s, Ask(AbortBuild(id), [], Quiet(0))) == Abort(s, id, Quiet(0))
  {
    hide Abort, ValidDigest;
  }

  lemma WrongLower(s: System, b1: Text, o1: Mount, b2: Text, o2: Mount, id: Text, d: Device)
    requires Uncovered(s.kernel.mounts) && FrozenMount(id, d) in s.kernel.mounts && o1.OverlayOn?
    requires o2.OverlayOn? && o2.image == id && o2.lower != SourceOf(d)
    ensures !(o2.lower.SourceOf? && FrozenMount(id, o2.lower.device) in Both(s.kernel.mounts, b1, o1, b2, o2))
  {
    hide Uncovered, MountDir, StagingDir;
    if o2.lower.SourceOf? && FrozenMount(id, o2.lower.device) in s.kernel.mounts {
      CacheOverlayRuns.OneDevicePerImage(s.kernel.mounts, id, o2.lower.device, d);
    }
  }

  /** The run in which an image is bound at "/tmp" and another one at "/a": both are answered Ready, the second is wrong. */
  lemma BindAfterCoverFails(env: Env, k: Kernel, h1: Request, d1: Device, tree1: Tree, b1: Text,
                            h2: Request, d2: Device, tree2: Tree, b2: Text)
    requires TwoHits(env, k, h1, d1, tree1, h2, d2, tree2)
    requires b1 != b2 && ValidToken(b1) && ValidToken(b2)
    ensures var start, asks := System(k, NO_IMAGES), BindBoth(h1, d1, b1, Ascii("/tmp"), h2, d2, b2, Ascii("/a"));
            var r := Run(env, start, asks);
            && AllReady(Replies(env, start, asks))
            && h2.image in r.manager.images && Overlay(b2, Ascii("/a")) in r.manager.images[h2.image].overlays
            && WrongOverlay(env, r.kernel, h2.image, A)
  {
    hide Sealed, Run, Replies, Serve, BindOverlay, ValidToken, AcceptableTarget, BindBoth, TargetPlace, Clear, OVERLAY_ROOT,
      StagingDir, CanBind, Inv, Uncovered, CanUnmount, OverlaysOk, HasKey;
    SealedIsAHit(env, k, h1, d1, tree1);
    SealedIsAHit(env, k, h2, d2, tree2);
    TheTargets();
    NoNuls();
    var s := BothOpen(k, h1, d1, h2, d2);
    BindBothServed(env, k, h1, d1, tree1, b1, SLASH_TMP, h2, d2, tree2, b2, SLASH_A);
    var s2, o1, o2 := BothBound(env, s, h1.image, b1, SLASH_TMP, h2.image, b2, SLASH_A, 0);
    assert o2 in s2.kernel.mounts;
    WrongLower(s, b1, o1, b2, o2, h2.image, d2);
    assert Overlay(b2, SLASH_A) in s2.manager.images[h2.image].overlays;
  }
}
