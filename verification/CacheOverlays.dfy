/**
 Overlays over whole runs. While no request asks for a target that would hide the cache directory or spell the place
 of a reserved target differently, registry and mount table agree, and every mounted overlay has its own image's frozen
 tree as its lower directory.
 */
module CacheOverlays {
  import opened Bytes
  import opened Utf8
  import opened Snapshot
  import opened Paths
  import opened TreeHash
  import opened CacheProtocol
  import opened CacheKernel
  import opened CacheManager
  import opened CacheInvariant
  import opened CacheRegistry
  import opened CacheRuns

  // ----- Safe targets -----

  /** Neither above nor below the directories the manager mounts in. */
  predicate GoodPlace(p: Location)
  {
    !(p <= CACHE_ROOT) && !(CACHE_ROOT <= p) && !(OVERLAY_ROOT <= p)
  }

  /** Not on the way to the cache directory. */
  predicate Clear(target: Text)
  {
    !(TargetPlace(target) <= CACHE_ROOT)
  }

  lemma ClearIsGood(target: Text)
    requires AcceptableTarget(target) && Clear(target)
    ensures GoodPlace(TargetPlace(target))
  {
  }

  lemma {:induction false} StepsAreNames(cs: seq<Name>)
    requires [DOT, DOT] !in cs && forall i :: 0 <= i < |cs| ==> SLASH !in cs[i]
    ensures forall i :: 0 <= i < |Steps(cs)| ==> Component(Steps(cs)[i]) && Steps(cs)[i] != [DOT] && Steps(cs)[i] != [DOT, DOT]
  {
    if cs != [] {
      assert cs[0] in cs && forall i :: 0 <= i < |cs[1..]| ==> cs[1..][i] == cs[i + 1] && cs[1..][i] in cs;
      StepsAreNames(cs[1..]);
    }
  }

  /** An accepted target names a place without steps up or sideways, outside the manager's own directories. */
  lemma AcceptedTargetsAreLocations(target: Text)
    requires AcceptableTarget(target)
    ensures var p := TargetPlace(target);
            && Components(p) && [DOT] !in p && [DOT, DOT] !in p
            && !(CACHE_ROOT <= p) && !(OVERLAY_ROOT <= p)
  {
    RenderSplit(target);
    StepsAreNames(Split(target));
  }

  // ----- The mount table -----

  function SourcePath(id: Text): (p: Location)
  {
    MountDir(id) + [SOURCE]
  }

  /** Nothing is mounted on the way to an image's source directory after the image itself. */
  ghost predicate Uncovered(ms: seq<Mount>)
  {
    forall i, j, id :: 0 <= i < j < |ms| && ms[i].point == MountDir(id) ==> !(ms[j].point <= SourcePath(id))
  }

  ghost predicate Tidy(ms: seq<Mount>)
  {
    && Uncovered(ms)
    && (forall i, j :: 0 <= i < j < |ms| && ms[i].OverlayOn? ==> ms[j].point != ms[i].point)
    && (forall i :: 0 <= i < |ms| && ms[i].OverlayOn? ==> GoodPlace(ms[i].point))
  }

  /** Still tidy, with no overlays but those that were there, and with all of those of other images. */
  ghost predicate Stays(ms: seq<Mount>, ns: seq<Mount>, id: Text)
  {
    && Tidy(ns)
    && (forall m :: m in ns && m.OverlayOn? ==> m in ms)
    && (forall m :: m in ms && m.OverlayOn? && m.image != id ==> m in ns)
  }

  lemma PrefixOfSourcePath(p: Location, id: Text)
    requires p <= SourcePath(id)
    ensures p <= CACHE_ROOT || p == MountDir(id) || p == SourcePath(id)
  {
    hide CACHE_ROOT;
    if |p| <= |CACHE_ROOT| {
      assert p == SourcePath(id)[..|p|] == CACHE_ROOT[..|p|];
    } else if |p| == |CACHE_ROOT| + 1 {
      assert p == SourcePath(id)[..|p|] == MountDir(id);
    } else {
      assert |p| == |SourcePath(id)|;
    }
  }

  lemma StagingIsApart(binding: Text, id: Text)
    ensures !(StagingDir(binding) <= SourcePath(id))
    ensures !GoodPlace(StagingDir(binding)) && !GoodPlace(MountDir(id)) && !GoodPlace(SourcePath(id))
  {
    assert StagingDir(binding)[0] == Ascii("mnt") && SourcePath(id)[0] == Ascii("tmp");
    assert Ascii("mnt")[0] != Ascii("tmp")[0];
    assert OVERLAY_ROOT <= StagingDir(binding) && CACHE_ROOT <= MountDir(id) <= SourcePath(id);
  }

  lemma RemoveStays(ms: seq<Mount>, ns: seq<Mount>, i: nat, id: Text)
    requires Stays(ms, ns, id) && i < |ns| && (ns[i].OverlayOn? ==> ns[i].image == id)
    ensures Stays(ms, RemoveMount(ns, i), id)
  {
    hide MountDir, SourcePath, GoodPlace;
    RemoveLeavesOthers(ns, i);
    var rs := RemoveMount(ns, i);
    assert forall j :: 0 <= j < |rs| ==> rs[j] == ns[if j < i then j else j + 1];
    forall a, b, x | 0 <= a < b < |rs| && rs[a].point == MountDir(x)
      ensures !(rs[b].point <= SourcePath(x))
    {
      var a1, b1 := if a < i then a else a + 1, if b < i then b else b + 1;
      assert ns[a1].point == MountDir(x);
    }
    forall a, b | 0 <= a < b < |rs| && rs[a].OverlayOn?
      ensures rs[b].point != rs[a].point
    {
      var a1, b1 := if a < i then a else a + 1, if b < i then b else b + 1;
      assert ns[a1].OverlayOn?;
    }
  }

  lemma RemoveLeavesOthers(ms: seq<Mount>, i: nat)
    requires i < |ms|
    ensures forall m :: m in ms && m != ms[i] ==> m in RemoveMount(ms, i)
    ensures forall m :: m in RemoveMount(ms, i) ==> m in ms
  {
    var rs := RemoveMount(ms, i);
    forall m | m in ms && m != ms[i]
      ensures m in rs
    {
      var j :| 0 <= j < |ms| && ms[j] == m;
      assert rs[if j < i then j else j - 1] == m;
    }
  }

  /** Taking a mount off a place that holds no overlay of another image. */
  lemma UnmountStays(ms: seq<Mount>, k: Kernel, p: Location, c: Choice, id: Text)
    requires Stays(ms, k.mounts, id) && forall m :: m in k.mounts && m.OverlayOn? && m.point == p ==> m.image == id
    ensures Stays(ms, Unmount(k, p, c).0.mounts, id)
  {
    hide Stays;
    if Unmount(k, p, c).1 {
      RemoveStays(ms, k.mounts, Top(k.mounts, p).value, id);
    }
  }

  lemma NoOverlayOutside(ms: seq<Mount>, p: Location)
    requires Tidy(ms) && !GoodPlace(p)
    ensures forall m :: m in ms && m.OverlayOn? ==> m.point != p
  {
    hide GoodPlace;
  }

  lemma UnmountDirStays(ms: seq<Mount>, k: Kernel, dir: Text, c: Choice, id: Text)
    requires Stays(ms, k.mounts, id)
    ensures Stays(ms, Unmount(k, MountDir(dir), c).0.mounts, id)
  {
    hide Tidy, MountDir, GoodPlace, Unmount;
    StagingIsApart([], dir);
    NoOverlayOutside(k.mounts, MountDir(dir));
    UnmountStays(ms, k, MountDir(dir), c, id);
  }

  lemma UnmountStagingStays(ms: seq<Mount>, k: Kernel, binding: Text, c: Choice, id: Text)
    requires Stays(ms, k.mounts, id)
    ensures Stays(ms, Unmount(k, StagingDir(binding), c).0.mounts, id)
  {
    hide Tidy, StagingDir, GoodPlace, Unmount;
    StagingIsApart(binding, []);
    NoOverlayOutside(k.mounts, StagingDir(binding));
    UnmountStays(ms, k, StagingDir(binding), c, id);
  }

  lemma AppendPlainStays(ms: seq<Mount>, ns: seq<Mount>, binding: Text, id: Text)
    requires Stays(ms, ns, id)
    ensures Stays(ms, ns + [Plain(StagingDir(binding))], id)
  {
    hide MountDir, SourcePath, GoodPlace, StagingDir;
    forall x
      ensures !(StagingDir(binding) <= SourcePath(x)) && !GoodPlace(StagingDir(binding))
    {
      StagingIsApart(binding, x);
    }
    StagingIsApart(binding, []);
  }

  lemma AppendDiskStays(ms: seq<Mount>, ns: seq<Mount>, id: Text, d: Device, readOnly: bool)
    requires Stays(ms, ns, id) && NoneAt(ns, MountDir(id))
    ensures Stays(ms, ns + [Disk(MountDir(id), d, readOnly)], id)
  {
    hide MountDir, SourcePath, GoodPlace;
    var rs := ns + [Disk(MountDir(id), d, readOnly)];
    StagingIsApart([], id);
    forall x, i | 0 <= i < |ns| && ns[i].point == MountDir(x)
      ensures !(MountDir(id) <= SourcePath(x))
    {
      MountDirsAreApart(id, x);
    }
  }

  lemma MountDirsAreApart(a: Text, b: Text)
    ensures MountDir(a) <= SourcePath(b) ==> MountDir(a) == MountDir(b)
  {
    if MountDir(a) <= SourcePath(b) {
      assert MountDir(a) == SourcePath(b)[..|MountDir(b)|] == MountDir(b);
    }
  }

  /** An overlay put on a good place that holds no other overlay keeps the table tidy. */
  lemma AppendOverlayTidy(ns: seq<Mount>, m: Mount)
    requires Tidy(ns) && m.OverlayOn? && GoodPlace(m.point)
    requires forall i :: 0 <= i < |ns| && ns[i].OverlayOn? ==> ns[i].point != m.point
    ensures Tidy(ns + [m])
  {
    hide MountDir, SourcePath;
    forall id, i | 0 <= i < |ns| && ns[i].point == MountDir(id)
      ensures !(m.point <= SourcePath(id))
    {
      StagingIsApart([], id);
      if m.point <= SourcePath(id) {
        PrefixOfSourcePath(m.point, id);
        assert false;
      }
    }
  }

  lemma TopIs(ms: seq<Mount>, p: Location, i: nat)
    requires i < |ms| && ms[i].point <= p && forall j :: i < j < |ms| ==> !(ms[j].point <= p)
    ensures Top(ms, p) == Some(i)
  {
    hide Top;
  }

  lemma TowardsSource(p: Location, id: Text)
    requires p <= MountDir(id)
    ensures p <= SourcePath(id)
  {
  }

  /** An image's mount is the one its paths lead to, as long as nothing covers it. */
  lemma LeadsToItsMount(ms: seq<Mount>, id: Text, i: nat)
    requires Uncovered(ms) && i < |ms| && ms[i].point == MountDir(id)
    ensures Top(ms, MountDir(id)) == Some(i) && Top(ms, SourcePath(id)) == Some(i)
  {
    hide MountDir, SourcePath, Top;
    TowardsSource(MountDir(id), id);
    forall j | i < j < |ms|
      ensures !(ms[j].point <= MountDir(id))
    {
      if ms[j].point <= MountDir(id) {
        TowardsSource(ms[j].point, id);
      }
    }
    TopIs(ms, MountDir(id), i);
    TopIs(ms, SourcePath(id), i);
  }

  lemma EmptyMeansNoneAt(k: Kernel, id: Text, c: Choice)
    requires Uncovered(k.mounts) && EmptyDirectory(k, MountDir(id), c).1
    ensures NoneAt(k.mounts, MountDir(id))
  {
    hide MountDir, SourcePath, Uncovered, Top;
    forall i | 0 <= i < |k.mounts|
      ensures k.mounts[i].point != MountDir(id)
    {
      if k.mounts[i].point == MountDir(id) {
        LeadsToItsMount(k.mounts, id, i);
        assert false;
      }
    }
  }

  lemma UnmountedMeansNoneAt(k: Kernel, id: Text, c: Choice)
    requires Uncovered(k.mounts) && Unmount(k, MountDir(id), c).1
    ensures NoneAt(Unmount(k, MountDir(id), c).0.mounts, MountDir(id))
  {
    hide MountDir, SourcePath, Uncovered, Top;
    var i := Top(k.mounts, MountDir(id)).value;
    var rs := RemoveMount(k.mounts, i);
    forall j | 0 <= j < |rs|
      ensures rs[j].point != MountDir(id)
    {
      var a := if j < i then j else j + 1;
      assert rs[j] == k.mounts[a];
      if rs[j].point == MountDir(id) {
        LeadsToItsMount(k.mounts, id, a);
        assert false;
      }
    }
  }

  // ----- Overlays and their owners -----

  /** Its lower directory is the tree of the frozen device of its image, and that tree has the image's key. */
  ghost predicate OverlayOk(env: Env, k: Kernel, m: Mount)
    requires m.OverlayOn?
  {
    && m.lower.SourceOf?
    && FrozenMount(m.image, m.lower.device) in k.mounts
    && HasKey(env, k, m.lower.device, m.key)
  }

  ghost predicate OverlaysOk(env: Env, k: Kernel)
  {
    forall m :: m in k.mounts && m.OverlayOn? ==> OverlayOk(env, k, m)
  }

  /** Every overlay stands on a reserved target. */
  ghost predicate Claimed(ms: seq<Mount>, targets: set<Text>)
  {
    forall m :: m in ms && m.OverlayOn? ==> exists t :: t in targets && TargetPlace(t) == m.point
  }

  ghost predicate Among(m: Mount, overlays: seq<Overlay>, n: nat)
    requires n <= |overlays|
  {
    exists i :: 0 <= i < n && TargetPlace(overlays[i].target) == m.point
  }

  /** The overlays mounted for an image are among the first n of the given ones. */
  ghost predicate Within(ms: seq<Mount>, id: Text, overlays: seq<Overlay>, n: nat)
    requires n <= |overlays|
  {
    forall m :: m in ms && m.OverlayOn? && m.image == id ==> Among(m, overlays, n)
  }

  ghost predicate Owned(ms: seq<Mount>, images: map<Text, Image>)
  {
    forall id :: id in images ==> Within(ms, id, images[id].overlays, |images[id].overlays|)
  }

  ghost predicate NoneFor(ms: seq<Mount>, id: Text)
  {
    forall m :: m in ms && m.OverlayOn? ==> m.image != id
  }

  /** Some overlay is mounted for the image on the target. */
  ghost predicate Standing(ms: seq<Mount>, id: Text, o: Overlay)
  {
    exists m :: m in ms && m.OverlayOn? && m.image == id && m.point == TargetPlace(o.target)
  }

  ghost predicate AllStanding(ms: seq<Mount>, id: Text, overlays: seq<Overlay>)
  {
    forall i :: 0 <= i < |overlays| ==> Standing(ms, id, overlays[i])
  }

  /** Every registered overlay is mounted. */
  ghost predicate Present(ms: seq<Mount>, images: map<Text, Image>)
  {
    forall id :: id in images ==> AllStanding(ms, id, images[id].overlays)
  }

  ghost predicate OverlayInv(env: Env, s: System)
  {
    && Inv(env, s)
    && Registered(s.manager)
    && Tidy(s.kernel.mounts)
    && OverlaysOk(env, s.kernel)
    && Claimed(s.kernel.mounts, s.manager.targets)
    && Owned(s.kernel.mounts, s.manager.images)
    && Present(s.kernel.mounts, s.manager.images)
  }

  lemma OverlaysCarry(env: Env, k: Kernel, l: Kernel, id: Text)
    requires OverlaysOk(env, k) && Keeps(k, l, {id}) && Stays(k.mounts, l.mounts, id)
    requires Keeps(k, l, {}) || NoneFor(l.mounts, id)
    ensures OverlaysOk(env, l)
  {
    hide Tidy, Coherent, TreeKey;
    forall m | m in l.mounts && m.OverlayOn?
      ensures OverlayOk(env, l, m)
    {
      assert OverlayOk(env, k, m);
      if m.image == id {
        assert Keeps(k, l, {});
        assert id !in {};
      } else {
        assert m.image !in {id};
      }
    }
  }

  lemma ClaimedFewer(ms: seq<Mount>, ns: seq<Mount>, targets: set<Text>, id: Text)
    requires Claimed(ms, targets) && Stays(ms, ns, id)
    ensures Claimed(ns, targets)
  {
    hide Tidy, TargetPlace;
  }

  /** Taking a mount off a good place leaves no overlay there. */
  lemma UnmountClears(k: Kernel, p: Location, c: Choice)
    requires Tidy(k.mounts) && Unmount(k, p, c).1
    ensures forall m :: m in Unmount(k, p, c).0.mounts && m.OverlayOn? ==> m.point != p
  {
    hide Uncovered, GoodPlace, Top;
    var i := Top(k.mounts, p).value;
    var rs := RemoveMount(k.mounts, i);
    forall j | 0 <= j < |rs| && rs[j].OverlayOn?
      ensures rs[j].point != p
    {
      var a := if j < i then j else j + 1;
      assert rs[j] == k.mounts[a];
    }
  }

  // ----- Rolling back -----

  lemma ReleaseKeepsClaims(ms: seq<Mount>, targets: set<Text>, target: Text)
    requires Claimed(ms, targets)
    requires forall m :: m in ms && m.OverlayOn? ==> m.point != TargetPlace(target)
    ensures Claimed(ms, targets - {target})
  {
    hide TargetPlace;
    forall m | m in ms && m.OverlayOn?
      ensures exists t :: t in targets - {target} && TargetPlace(t) == m.point
    {
      var t :| t in targets && TargetPlace(t) == m.point;
      assert t in targets - {target};
    }
  }

  lemma WithinOneLess(ms: seq<Mount>, ns: seq<Mount>, id: Text, overlays: seq<Overlay>, n: nat)
    requires 0 < n <= |overlays| && Within(ms, id, overlays, n) && Stays(ms, ns, id)
    requires forall m :: m in ns && m.OverlayOn? ==> m.point != TargetPlace(overlays[n - 1].target)
    ensures Within(ns, id, overlays, n - 1)
  {
    hide TargetPlace, Tidy;
    forall m | m in ns && m.OverlayOn? && m.image == id
      ensures Among(m, overlays, n - 1)
    {
      assert Among(m, overlays, n);
      var i :| 0 <= i < n && TargetPlace(overlays[i].target) == m.point;
      assert i != n - 1;
    }
  }

  lemma StaysTrans(ms: seq<Mount>, ns: seq<Mount>, rs: seq<Mount>, id: Text)
    requires Stays(ms, ns, id) && Stays(ns, rs, id)
    ensures Stays(ms, rs, id)
  {
  }

  lemma StaysSelf(ms: seq<Mount>, id: Text)
    requires Tidy(ms)
    ensures Stays(ms, ms, id)
  {
  }

  lemma StaysIsTidy(ms: seq<Mount>, ns: seq<Mount>, id: Text)
    requires Stays(ms, ns, id)
    ensures Tidy(ns) && Uncovered(ns)
  {
  }

  lemma {:induction false} RollbackOverlaysStays(k0: Kernel, s: System, overlays: seq<Overlay>, n: nat, id: Text, os: Script, at: nat)
    requires n <= |overlays| && AcceptableTargets(overlays) && Keeps(k0, s.kernel, {})
    requires Tidy(s.kernel.mounts) && Claimed(s.kernel.mounts, s.manager.targets) && Within(s.kernel.mounts, id, overlays, n)
    requires Mine(s.kernel.mounts, id, overlays)
    ensures var (r, ok) := RollbackOverlays(s, overlays, n, os, at);
            && Stays(s.kernel.mounts, r.kernel.mounts, id)
            && Claimed(r.kernel.mounts, r.manager.targets)
            && Keeps(k0, r.kernel, {})
            && (ok ==> NoneFor(r.kernel.mounts, id))
    decreases n
  {
    hide Tidy, Claimed, Within, Keeps, Unmount, TargetPlace, StagingDir, AcceptableTarget, Stays, Mine;
    var ms := s.kernel.mounts;
    StaysSelf(ms, id);
    if n == 0 {
      NoneWithin(ms, id, overlays);
    } else {
      var o := overlays[n - 1];
      var (k1, target) := Unmount(s.kernel, TargetPlace(o.target), os(at));
      MineAt(ms, id, overlays, n - 1);
      UnmountStays(ms, s.kernel, TargetPlace(o.target), os(at), id);
      UnmountTargetOn(k0, s.kernel, o.target, os(at), {});
      ClaimedFewer(ms, k1.mounts, s.manager.targets, id);
      if target {
        UnmountClears(s.kernel, TargetPlace(o.target), os(at));
        WithinOneLess(ms, k1.mounts, id, overlays, n);
        var (k2, staging) := Unmount(k1, StagingDir(o.binding), os(at + 1));
        StaysIsTidy(ms, k1.mounts, id);
        StaysSelf(k1.mounts, id);
        UnmountStagingStays(k1.mounts, k1, o.binding, os(at + 1), id);
        UnmountStagingOn(k0, k1, o.binding, os(at + 1), {});
        StaysTrans(ms, k1.mounts, k2.mounts, id);
        ClaimedFewer(k1.mounts, k2.mounts, s.manager.targets, id);
        if staging {
          StaysIsTidy(ms, k2.mounts, id);
          WithinFewer(k1.mounts, k2.mounts, id, overlays, n - 1, id);
          StillClear(k1.mounts, k2.mounts, TargetPlace(o.target), id);
          MineFewer(ms, k2.mounts, id, overlays);
          ReleaseKeepsClaims(k2.mounts, s.manager.targets, o.target);
          var released := s.manager.(bindings := s.manager.bindings - {o.binding}, targets := s.manager.targets - {o.target});
          RollbackOverlaysStays(k0, System(k2, released), overlays, n - 1, id, os, at + 2);
          StaysTrans(ms, k2.mounts, RollbackOverlays(System(k2, released), overlays, n - 1, os, at + 2).0.kernel.mounts, id);
        }
      }
    }
  }

  /** Only overlays of the image stand on its targets. */
  ghost predicate Mine(ms: seq<Mount>, id: Text, overlays: seq<Overlay>)
  {
    forall m, i :: m in ms && m.OverlayOn? && 0 <= i < |overlays| && m.point == TargetPlace(overlays[i].target) ==> m.image == id
  }

  lemma MineAt(ms: seq<Mount>, id: Text, overlays: seq<Overlay>, i: nat)
    requires Mine(ms, id, overlays) && i < |overlays|
    ensures forall m :: m in ms && m.OverlayOn? && m.point == TargetPlace(overlays[i].target) ==> m.image == id
  {
    hide TargetPlace;
  }

  lemma MineFewer(ms: seq<Mount>, ns: seq<Mount>, id: Text, overlays: seq<Overlay>)
    requires Mine(ms, id, overlays) && Stays(ms, ns, id)
    ensures Mine(ns, id, overlays)
  {
    hide Tidy, TargetPlace;
  }

  /** No place carries two overlays. */
  lemma OneOverlayPerPlace(ms: seq<Mount>, m: Mount, n: Mount)
    requires Tidy(ms) && m in ms && n in ms && m.OverlayOn? && n.OverlayOn? && m.point == n.point
    ensures m == n
  {
    hide GoodPlace, Uncovered;
    var i :| 0 <= i < |ms| && ms[i] == m;
    var j :| 0 <= j < |ms| && ms[j] == n;
    assert i == j;
  }

  lemma StandingIsMine(ms: seq<Mount>, id: Text, overlays: seq<Overlay>)
    requires Tidy(ms) && AllStanding(ms, id, overlays)
    ensures Mine(ms, id, overlays)
  {
    hide Tidy, TargetPlace;
    forall m, i | m in ms && m.OverlayOn? && 0 <= i < |overlays| && m.point == TargetPlace(overlays[i].target)
      ensures m.image == id
    {
      assert Standing(ms, id, overlays[i]);
      var n :| n in ms && n.OverlayOn? && n.image == id && n.point == TargetPlace(overlays[i].target);
      OneOverlayPerPlace(ms, m, n);
    }
  }

  lemma NoneWithin(ms: seq<Mount>, id: Text, overlays: seq<Overlay>)
    requires Within(ms, id, overlays, 0)
    ensures NoneFor(ms, id)
  {
    forall m | m in ms && m.OverlayOn?
      ensures m.image != id
    {
      assert !Among(m, overlays, 0);
    }
  }

  lemma WithinFewer(ms: seq<Mount>, ns: seq<Mount>, x: Text, overlays: seq<Overlay>, n: nat, id: Text)
    requires n <= |overlays| && Within(ms, x, overlays, n) && Stays(ms, ns, id)
    ensures Within(ns, x, overlays, n)
  {
    hide Tidy, Among;
  }

  lemma StillClear(ms: seq<Mount>, ns: seq<Mount>, p: Location, id: Text)
    requires Stays(ms, ns, id) && forall m :: m in ms && m.OverlayOn? ==> m.point != p
    ensures forall m :: m in ns && m.OverlayOn? ==> m.point != p
  {
    hide Tidy;
  }

  /** Rolling an image back takes all its overlays down before the image itself. */
  lemma RollbackStays(k0: Kernel, s: System, id: Text, os: Script, at: nat)
    requires id in s.manager.images && AcceptableTargets(s.manager.images[id].overlays) && Keeps(k0, s.kernel, {})
    requires Tidy(s.kernel.mounts) && Claimed(s.kernel.mounts, s.manager.targets) && Owned(s.kernel.mounts, s.manager.images)
    requires Mine(s.kernel.mounts, id, s.manager.images[id].overlays)
    ensures var (r, ok) := RollbackImage(s, id, os, at);
            && Stays(s.kernel.mounts, r.kernel.mounts, id)
            && Claimed(r.kernel.mounts, r.manager.targets)
            && (Keeps(k0, r.kernel, {}) || NoneFor(r.kernel.mounts, id))
            && (ok ==> NoneFor(r.kernel.mounts, id))
  {
    hide Tidy, Claimed, Within, Keeps, Unmount, RollbackOverlays, AcceptableTargets, Stays, MountDir, NoneFor, Mine;
    var ms, overlays := s.kernel.mounts, s.manager.images[id].overlays;
    var forgotten := s.(manager := s.manager.(images := s.manager.images - {id}));
    RollbackOverlaysStays(k0, forgotten, overlays, |overlays|, id, os, at + 2);
    var (s1, ok) := RollbackOverlays(forgotten, overlays, |overlays|, os, at + 2);
    if ok {
      var k2 := Unmount(s1.kernel, MountDir(id), os(at)).0;
      StaysIsTidy(ms, s1.kernel.mounts, id);
      StaysSelf(s1.kernel.mounts, id);
      UnmountDirStays(s1.kernel.mounts, s1.kernel, id, os(at), id);
      StaysTrans(ms, s1.kernel.mounts, k2.mounts, id);
      ClaimedFewer(s1.kernel.mounts, k2.mounts, s1.manager.targets, id);
      NoneForFewer(s1.kernel.mounts, k2.mounts, id);
    }
  }

  lemma NoneForFewer(ms: seq<Mount>, ns: seq<Mount>, id: Text)
    requires NoneFor(ms, id) && Stays(ms, ns, id)
    ensures NoneFor(ns, id)
  {
    hide Tidy;
  }

  // ----- Each request -----

  /** What a request that mounts no overlay does to the table, for the image it is about. */
  ghost predicate Smooth(s: System, r: System, id: Text, reply: Reply)
  {
    && Stays(s.kernel.mounts, r.kernel.mounts, id)
    && Claimed(r.kernel.mounts, r.manager.targets)
    && (Keeps(s.kernel, r.kernel, {}) || NoneFor(r.kernel.mounts, id))
    && (id !in s.manager.images && id in r.manager.images ==> NoneFor(r.kernel.mounts, id))
    && (id in s.manager.images && id !in r.manager.images && reply != Failed(RollbackFailed) ==> NoneFor(r.kernel.mounts, id))
    && (id in r.manager.images ==> AllStanding(r.kernel.mounts, id, r.manager.images[id].overlays))
  }

  lemma SmoothKernel(env: Env, s: System, k: Kernel, id: Text)
    requires OverlayInv(env, s) && Stays(s.kernel.mounts, k.mounts, id)
    requires Keeps(s.kernel, k, {}) || NoneFor(k.mounts, id)
    requires id in s.manager.images ==> k.mounts == s.kernel.mounts || s.manager.images[id].overlays == []
    ensures forall reply :: Smooth(s, s.(kernel := k), id, reply)
  {
    hide Inv, Registered, OverlaysOk, Owned, Stays, Keeps, Claimed, NoneFor, Tidy, Standing;
    ClaimedFewer(s.kernel.mounts, k.mounts, s.manager.targets, id);
  }

  /** No overlay is mounted for an image whose directory carries no mount. */
  lemma NoMountNoOverlays(env: Env, k: Kernel, id: Text)
    requires OverlaysOk(env, k) && NoneAt(k.mounts, MountDir(id))
    ensures NoneFor(k.mounts, id)
  {
    hide MountDir, HasKey;
    forall m | m in k.mounts && m.OverlayOn?
      ensures m.image != id
    {
      assert OverlayOk(env, k, m);
      var f := FrozenMount(m.image, m.lower.device);
      var i :| 0 <= i < |k.mounts| && k.mounts[i] == f;
      assert f.point == MountDir(m.image);
    }
  }

  /** An image being built has no overlays yet. */
  lemma BuildingHasNoOverlays(env: Env, s: System, id: Text)
    requires OverlayInv(env, s) && id in s.manager.images && s.manager.images[id].phase == Building
    ensures NoneFor(s.kernel.mounts, id) && s.manager.images[id].overlays == []
  {
    hide Registered, Tidy, OverlaysOk, Claimed, Present, Within, HasKey;
    TrackedIsOk(env, s, id);
    assert s.manager.images[id].overlays == [];
    NoneWithin(s.kernel.mounts, id, []);
  }

  /** No target is reserved, and an image newly tracked has no overlays. */
  predicate NothingBound(s: System, r: System, id: Text)
  {
    && r.manager.targets == s.manager.targets
    && (id !in s.manager.images && id in r.manager.images ==> r.manager.images[id].overlays == [])
  }

  lemma FinishBuildStays(ms: seq<Mount>, s: System, id: Text, d: Device, size: u64, key: Text, os: Script)
    requires Stays(ms, s.kernel.mounts, id) && NoneAt(s.kernel.mounts, MountDir(id))
    ensures var r := FinishBuild(s, id, d, size, key, os).0;
            Stays(ms, r.kernel.mounts, id) && NothingBound(s, r, id)
  {
    hide Stays, NoneAt, Unmount, Drift, SetContent, Volume, MountDir;
    var (k3, mounted) := MountDisk(s.kernel, d, MountDir(id), false, os(4));
    if mounted {
      AppendDiskStays(ms, s.kernel.mounts, id, d, false);
      var k4 := Drift(k3, os(5));
      UnmountDirStays(ms, k4, id, os(6), id);
      var k5 := CreateSource(k4, MountDir(id), os(7)).0;
      CreateSourceKeepsMounts(k4, MountDir(id), os(7));
      UnmountDirStays(ms, k5, id, os(8), id);
    }
  }

  lemma CreateSourceKeepsMounts(k: Kernel, dir: Location, c: Choice)
    ensures CreateSource(k, dir, c).0.mounts == k.mounts
  {
  }

  lemma BeginBuildSmooth(env: Env, s: System, id: Text, serial: Text, size: u64, key: Text, os: Script)
    requires OverlayInv(env, s)
    ensures Smooth(s, BeginBuild(s, id, serial, size, key, os).0, id, BeginBuild(s, id, serial, size, key, os).1)
  {
    hide Inv, Registered, Owned, Present, OverlaysOk, Claimed, Keeps, Stays, NoneFor, NoneAt, Tidy,
      Drift, Discover, EmptyDirectory, FinishBuild, MountDir, SetContent;
    var k, ms := s.kernel, s.kernel.mounts;
    Begin(env, s, id);
    StaysSelf(ms, id);
    SmoothKernel(env, s, k, id);
    if id !in s.manager.images {
      var k0 := Drift(k, os(0));
      DriftOn(k, k, os(0), {});
      SmoothKernel(env, s, k0, id);
      var found := Discover(k0, serial, size, false, os(0));
      if found.Found? && os(1).ok {
        var (k1, formatted) := Format(k0, found.device, os(2));
        FormatOn(k, k0, found.device, os(2), {});
        FormatKeepsMounts(k0, found.device, os(2));
        SmoothKernel(env, s, k1, id);
        if formatted {
          var (k2, empty) := EmptyDirectory(k1, MountDir(id), os(3));
          EmptyDirectoryOn(k, k1, MountDir(id), os(3), {});
          EmptyDirectoryKeepsMounts(k1, MountDir(id), os(3));
          SmoothKernel(env, s, k2, id);
          if empty {
            StaysIsTidy(ms, ms, id);
            EmptyMeansNoneAt(k1, id, os(3));
            NoMountNoOverlays(env, k, id);
            FinishBuildStays(ms, s.(kernel := k2), id, found.device, size, key, os);
            var r := FinishBuild(s.(kernel := k2), id, found.device, size, key, os).0;
            NoneForFewer(ms, r.kernel.mounts, id);
            ClaimedFewer(ms, r.kernel.mounts, s.manager.targets, id);
          }
        }
      }
    }
  }

  lemma FormatKeepsMounts(k: Kernel, d: Device, c: Choice)
    requires d in k.devices
    ensures Format(k, d, c).0.mounts == k.mounts
  {
  }

  lemma EmptyDirectoryKeepsMounts(k: Kernel, p: Location, c: Choice)
    ensures EmptyDirectory(k, p, c).0.mounts == k.mounts
  {
  }

  lemma CheckHitStays(env: Env, ms: seq<Mount>, s: System, id: Text, d: Device, size: u64, key: Text, os: Script)
    requires Stays(ms, s.kernel.mounts, id)
    ensures var r := CheckHit(env, s, id, d, size, key, os).0;
            Stays(ms, r.kernel.mounts, id) && NothingBound(s, r, id)
  {
    hide Stays, Drift, Volume, ParseSentinel, MountDir, TreeKey, Unmount;
    var k4 := ReadSentinel(s.kernel, MountDir(id), os(5)).0;
    var k5 := HashSource(env.hash, env.lists, k4, MountDir(id), os(6)).0;
    UnmountDirStays(ms, k4, id, os(10), id);
    UnmountDirStays(ms, k5, id, os(10), id);
  }

  lemma OpenHitSmooth(env: Env, s: System, id: Text, serial: Text, size: u64, key: Text, os: Script)
    requires OverlayInv(env, s)
    ensures Smooth(s, OpenHit(env, s, id, serial, size, key, os).0, id, OpenHit(env, s, id, serial, size, key, os).1)
  {
    hide Inv, Registered, Owned, Present, OverlaysOk, Claimed, Keeps, Stays, NoneFor, NoneAt, Tidy,
      Drift, Discover, EmptyDirectory, CheckHit, Unmount, MountDir;
    var k, ms := s.kernel, s.kernel.mounts;
    Begin(env, s, id);
    StaysSelf(ms, id);
    SmoothKernel(env, s, k, id);
    if id !in s.manager.images {
      var k0 := Drift(k, os(0));
      DriftOn(k, k, os(0), {});
      SmoothKernel(env, s, k0, id);
      var found := Discover(k0, serial, size, true, os(0));
      if found.Found? {
        var (k1, empty) := EmptyDirectory(k0, MountDir(id), os(1));
        EmptyDirectoryOn(k, k0, MountDir(id), os(1), {});
        EmptyDirectoryKeepsMounts(k0, MountDir(id), os(1));
        SmoothKernel(env, s, k1, id);
        if empty {
          StaysIsTidy(ms, ms, id);
          EmptyMeansNoneAt(k0, id, os(1));
          NoMountNoOverlays(env, k, id);
          var r := OpenHit(env, s, id, serial, size, key, os).0;
          MountedHitStays(env, ms, s.(kernel := k1), id, found.device, size, key, os);
          NoneForFewer(ms, r.kernel.mounts, id);
          ClaimedFewer(ms, r.kernel.mounts, s.manager.targets, id);
        }
      }
    }
  }

  lemma MountedHitStays(env: Env, ms: seq<Mount>, s: System, id: Text, d: Device, size: u64, key: Text, os: Script)
    requires Stays(ms, s.kernel.mounts, id) && NoneAt(s.kernel.mounts, MountDir(id))
    ensures var (k2, mounted) := MountDisk(s.kernel, d, MountDir(id), true, os(2));
            var k3 := Drift(k2, os(3));
            && Stays(ms, k2.mounts, id)
            && Stays(ms, Unmount(k3, MountDir(id), os(4)).0.mounts, id)
            && var r := CheckHit(env, s.(kernel := k3), id, d, size, key, os).0;
               Stays(ms, r.kernel.mounts, id) && NothingBound(s, r, id)
  {
    hide Stays, Drift, CheckHit, Unmount, MountDir, NoneAt;
    var (k2, mounted) := MountDisk(s.kernel, d, MountDir(id), true, os(2));
    AppendDiskStays(ms, s.kernel.mounts, id, d, true);
    var k3 := Drift(k2, os(3));
    UnmountDirStays(ms, k3, id, os(4), id);
    CheckHitStays(env, ms, s.(kernel := k3), id, d, size, key, os);
  }

  /** A rollback after steps that changed no mounts but the image's own. */
  lemma RejectSmooth(env: Env, s: System, k1: Kernel, id: Text, os: Script, at: nat)
    requires OverlayInv(env, s) && id in s.manager.images && Stays(s.kernel.mounts, k1.mounts, id)
    requires Keeps(s.kernel, k1, {}) || (Keeps(s.kernel, k1, {id}) && NoneFor(s.kernel.mounts, id))
    ensures var (r, ok) := RollbackImage(s.(kernel := k1), id, os, at);
            forall reply :: (reply == Failed(RollbackFailed) || ok) ==> Smooth(s, r, id, reply)
  {
    hide Inv, Registered, OverlaysOk, Claimed, Keeps, Stays, NoneFor, Tidy, RollbackImage, AcceptableTargets, Within,
      AllStanding, Mine;
    var ms, overlays := s.kernel.mounts, s.manager.images[id].overlays;
    Begin(env, s, id);
    var t := s.(kernel := k1);
    StaysIsTidy(ms, k1.mounts, id);
    ClaimedFewer(ms, k1.mounts, s.manager.targets, id);
    OwnedFewer(ms, k1.mounts, s.manager.images, id);
    StandingIsMine(ms, id, overlays);
    MineFewer(ms, k1.mounts, id, overlays);
    var r := RollbackImage(t, id, os, at).0;
    if Keeps(s.kernel, k1, {}) {
      RollbackStays(s.kernel, t, id, os, at);
    } else {
      KeepsIsCoherent(s.kernel, k1, {id});
      KeepsStart(k1);
      RollbackStays(k1, t, id, os, at);
      StaysTrans(ms, k1.mounts, r.kernel.mounts, id);
      NoneForFewer(ms, r.kernel.mounts, id);
    }
    StaysTrans(ms, k1.mounts, r.kernel.mounts, id);
    var ch := RollbackChanges(t, id, os, at);
  }

  lemma OwnedFewer(ms: seq<Mount>, ns: seq<Mount>, images: map<Text, Image>, id: Text)
    requires Owned(ms, images) && Stays(ms, ns, id)
    ensures Owned(ns, images)
  {
    hide Stays, Within;
    forall x | x in images
      ensures Within(ns, x, images[x].overlays, |images[x].overlays|)
    {
      WithinFewer(ms, ns, x, images[x].overlays, |images[x].overlays|, id);
    }
  }

  lemma TakeBatchSmooth(env: Env, s: System, id: Text, es: seq<ImportEntry>, dataLen: u32, data: seq<byte>, os: Script)
    requires OverlayInv(env, s)
    ensures Smooth(s, TakeBatch(s, id, es, dataLen, data, os).0, id, TakeBatch(s, id, es, dataLen, data, os).1)
  {
    hide OverlayInv, Stays, Keeps, NoneFor, Smooth, ImportInto, RollbackImage, MountDir;
    Opening(env, s, id);
    SmoothKernel(env, s, s.kernel, id);
    if id in s.manager.images {
      var k1 := ImportInto(s.kernel, MountDir(id), es, data, os(0)).0;
      ImportIntoOn(s.kernel, s.kernel, MountDir(id), es, data, os(0), {});
      ImportKeepsMounts(s.kernel, MountDir(id), es, data, os(0));
      SmoothKernel(env, s, k1, id);
      RejectSmooth(env, s, k1, id, os, 1);
    }
  }

  lemma Opening(env: Env, s: System, id: Text)
    requires OverlayInv(env, s)
    ensures Stays(s.kernel.mounts, s.kernel.mounts, id) && Keeps(s.kernel, s.kernel, {}) && Keeps(s.kernel, s.kernel, {id})
  {
    hide Inv, Registered, Owned, Present, OverlaysOk, Claimed, Keeps, Tidy;
    Begin(env, s, id);
    StaysSelf(s.kernel.mounts, id);
  }

  lemma ImportKeepsMounts(k: Kernel, dir: Location, es: seq<ImportEntry>, data: seq<byte>, c: Choice)
    ensures ImportInto(k, dir, es, data, c).0.mounts == k.mounts
  {
  }

  lemma SealSmooth(env: Env, s: System, id: Text, key: Text, os: Script)
    requires OverlayInv(env, s)
    ensures Smooth(s, Seal(env, s, id, key, os).0, id, Seal(env, s, id, key, os).1)
  {
    hide OverlayInv, Stays, Keeps, NoneFor, Smooth, RollbackImage, MountDir, HashSource, WriteSentinel, Drift, Unmount, FinishSeal;
    Opening(env, s, id);
    SmoothKernel(env, s, s.kernel, id);
    if id in s.manager.images && s.manager.images[id].phase == Building && s.manager.images[id].key == key {
      var k, ms, e := s.kernel, s.kernel.mounts, {id};
      BuildingHasNoOverlays(env, s, id);
      var k1 := HashSource(env.hash, env.lists, k, MountDir(id), os(0)).0;
      HashSourceOn(env, k, k, MountDir(id), os(0), e);
      RejectSmooth(env, s, k1, id, os, 20);
      var k2 := WriteSentinel(k1, MountDir(id), key, os(1)).0;
      SentinelKeepsMounts(k1, MountDir(id), key, os(1));
      WriteSentinelOn(k, k1, MountDir(id), key, os(1), e);
      SmoothKernel(env, s, k2, id);
      var k3 := Drift(k2, os(2));
      DriftOn(k, k2, os(2), e);
      SmoothKernel(env, s, k3, id);
      var (k4, unmounted) := Unmount(k3, MountDir(id), os(3));
      UnmountDirOn(k, k3, id, os(3), e);
      UnmountDirStays(ms, k3, id, os(3), id);
      NoneForFewer(ms, k4.mounts, id);
      SmoothKernel(env, s, k4, id);
      if unmounted {
        StaysIsTidy(ms, k3.mounts, id);
        UnmountedMeansNoneAt(k3, id, os(3));
        FinishSealSmooth(env, s, k4, id, key, os);
      }
    }
  }

  lemma SentinelKeepsMounts(k: Kernel, dir: Location, key: Text, c: Choice)
    ensures WriteSentinel(k, dir, key, c).0.mounts == k.mounts
  {
  }

  lemma FinishSealSmooth(env: Env, s: System, k4: Kernel, id: Text, key: Text, os: Script)
    requires OverlayInv(env, s) && id in s.manager.images && NoneFor(s.kernel.mounts, id) && s.manager.images[id].overlays == []
    requires Stays(s.kernel.mounts, k4.mounts, id) && Keeps(s.kernel, k4, {id}) && NoneAt(k4.mounts, MountDir(id))
    ensures Smooth(s, FinishSeal(env, s.(kernel := k4), id, key, os).0, id, FinishSeal(env, s.(kernel := k4), id, key, os).1)
  {
    hide OverlayInv, Stays, Keeps, NoneFor, NoneAt, RollbackImage, MountDir, HashSource, Drift;
    var k, ms, e, d := s.kernel, s.kernel.mounts, {id}, s.manager.images[id].device;
    var k5 := SetReadOnly(k4, d, os(4)).0;
    SetReadOnlyOn(k, k4, d, os(4), e);
    var k6 := Drift(k5, os(5));
    DriftOn(k, k5, os(5), e);
    var (k7, mounted) := MountDisk(k6, d, MountDir(id), true, os(6));
    MountDiskOn(k, k6, d, MountDir(id), true, os(6), e);
    AppendDiskStays(ms, k6.mounts, id, d, true);
    var k8 := Drift(k7, os(7));
    DriftOn(k, k7, os(7), e);
    var k9 := HashSource(env.hash, env.lists, k8, MountDir(id), os(8)).0;
    HashSourceOn(env, k, k8, MountDir(id), os(8), e);
    NoneForFewer(ms, k4.mounts, id);
    NoneForFewer(ms, k9.mounts, id);
    SmoothKernel(env, s, k5, id);
    SmoothKernel(env, s, k6, id);
    SmoothKernel(env, s, k7, id);
    SmoothKernel(env, s, k8, id);
    SmoothKernel(env, s, k9, id);
    assert Smooth(s, s.(kernel := k9), id, Failed(SystemError));
    RejectSmooth(env, s, k9, id, os, 20);
  }

  lemma AbortSmooth(env: Env, s: System, id: Text, os: Script)
    requires OverlayInv(env, s)
    ensures Smooth(s, Abort(s, id, os).0, id, Abort(s, id, os).1)
  {
    hide OverlayInv, Stays, Keeps, NoneFor, Smooth, RollbackOverlays, MountDir, Unmount, Drift;
    Opening(env, s, id);
    assert s.(kernel := s.kernel) == s;
    if id in s.manager.images {
      RejectSmooth(env, s, s.kernel, id, os, 0);
    } else {
      SmoothKernel(env, s, s.kernel, id);
    }
  }

  // ----- Mounting an overlay -----

  /** The table just before the overlay is put on its target. */
  function BeforeOverlay(k: Kernel, binding: Text, os: Script): (r: Kernel)
  {
    var k3 := Drift(EmptyDirectory(Drift(k, os(0)), StagingDir(binding), os(1)).0, os(2));
    Drift(Drift(Drift(MountPlain(k3, StagingDir(binding), os(3)).0, os(4)), os(6)), os(7))
  }

  lemma MountCacheOverlayStays(k: Kernel, id: Text, key: Text, binding: Text, target: Text, os: Script)
    requires Tidy(k.mounts)
    ensures var (r, ok) := MountCacheOverlay(k, id, key, binding, target, os);
            var before := BeforeOverlay(k, binding, os);
            if ok then
              && before.mounts == k.mounts + [Plain(StagingDir(binding))]
              && Stays(k.mounts, before.mounts, id)
              && r == before.(mounts := before.mounts + [OverlayOn(TargetPlace(target), LowerOf(before.mounts, MountDir(id)), id, key)])
            else Stays(k.mounts, r.mounts, id)
  {
    hide Stays, Tidy, Drift, StagingDir, TargetPlace, MountDir, LowerOf, Unmount;
    var ms := k.mounts;
    StaysSelf(ms, id);
    var k3 := Drift(EmptyDirectory(Drift(k, os(0)), StagingDir(binding), os(1)).0, os(2));
    AppendPlainStays(ms, k3.mounts, binding, id);
    var k5 := Drift(MountPlain(k3, StagingDir(binding), os(3)).0, os(4));
    if MountPlain(k3, StagingDir(binding), os(3)).1 {
      UnmountStagingStays(ms, k5, binding, os(5), id);
      var k6 := Drift(k5, os(6));
      UnmountStagingStays(ms, Drift(k6, os(7)), binding, os(8), id);
    }
  }

  /**
   When an overlay is mounted for a validated image, its lower directory is that image's tree exactly when nothing
   has been mounted, since the image, on the way to its source directory.
   */
  lemma LowerIsRightUnlessCovered(ms: seq<Mount>, id: Text, d: Device, i: nat)
    requires i < |ms| && ms[i] == FrozenMount(id, d)
    requires forall j :: i < j < |ms| ==> ms[j].point != MountDir(id)
    ensures LowerOf(ms, MountDir(id)) == SourceOf(d) <==> forall j :: i < j < |ms| ==> !(ms[j].point <= SourcePath(id))
  {
    hide MountDir, Top;
    var p := SourcePath(id);
    assert MountDir(id) <= p;
    var t := Top(ms, p).value;
    if forall j :: i < j < |ms| ==> !(ms[j].point <= p) {
      TopIs(ms, p, i);
    } else {
      assert t > i;
    }
  }

  lemma UncoveredLower(ms: seq<Mount>, id: Text, d: Device)
    requires Uncovered(ms) && FrozenMount(id, d) in ms
    ensures LowerOf(ms, MountDir(id)) == SourceOf(d)
  {
    hide MountDir, Top, SourcePath;
    var i :| 0 <= i < |ms| && ms[i] == FrozenMount(id, d);
    LeadsToItsMount(ms, id, i);
    assert MountDir(id) + [SOURCE] == SourcePath(id) by { SourcePathIs(id); }
  }

  lemma SourcePathIs(id: Text)
    ensures SourcePath(id) == MountDir(id) + [SOURCE]
  {
  }

  lemma FreshTarget(s: System, target: Text)
    requires Claimed(s.kernel.mounts, s.manager.targets)
    requires forall t :: t in s.manager.targets ==> TargetPlace(t) != TargetPlace(target)
    ensures forall m :: m in s.kernel.mounts && m.OverlayOn? ==> m.point != TargetPlace(target)
  {
    hide TargetPlace;
  }
}
