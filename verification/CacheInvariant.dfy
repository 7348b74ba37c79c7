/** What every request keeps: a validated image stays mounted read-only, with the tree its key stands for. */
module CacheInvariant {
  import opened Bytes
  import opened Utf8
  import opened Paths
  import opened TreeHash
  import opened CacheProtocol
  import opened Import
  import opened CacheKernel
  import opened CacheManager

  // ----- The invariant -----

  /** The tree on the device has this key. */
  ghost predicate HasKey(env: Env, k: Kernel, d: Device, key: Text)
  {
    && d in k.devices
    && k.devices[d].content.source.Some?
    && var t := k.devices[d].content.source.value;
       TreeKey(env.hash, t, env.lists(t)) == Some(key)
  }

  /** All mounts of a device are in one mode. */
  ghost predicate Coherent(ms: seq<Mount>)
  {
    forall i, j :: 0 <= i < |ms| && 0 <= j < |ms| && ms[i].Disk? && DiskOf(ms[j], ms[i].device) ==> ms[i].readOnly == ms[j].readOnly
  }

  function FrozenMount(id: Text, d: Device): (m: Mount)
  {
    Disk(MountDir(id), d, true)
  }

  ghost predicate ImageOk(env: Env, k: Kernel, id: Text, image: Image)
  {
    && (image.phase == Validated ==> FrozenMount(id, image.device) in k.mounts && HasKey(env, k, image.device, image.key))
    && (image.phase == Building ==> image.overlays == [])
    && (forall i :: 0 <= i < |image.overlays| ==> AcceptableTarget(image.overlays[i].target))
  }

  ghost predicate Inv(env: Env, s: System)
  {
    && Coherent(s.kernel.mounts)
    && forall id :: id in s.manager.images ==> ImageOk(env, s.kernel, id, s.manager.images[id])
  }

  // ----- What a system call leaves alone -----

  /** The frozen mounts of all images but the excepted ones stay, with their content. */
  ghost predicate Keeps(k: Kernel, l: Kernel, except: set<Text>)
  {
    && Coherent(l.mounts)
    && l.devices.Keys == k.devices.Keys
    && forall id, d :: id !in except && FrozenMount(id, d) in k.mounts ==>
         && FrozenMount(id, d) in l.mounts
         && (d in k.devices ==> l.devices[d].content == k.devices[d].content)
  }

  lemma KeepsStart(k: Kernel)
    requires Coherent(k.mounts)
    ensures Keeps(k, k, {})
  {
  }

  lemma KeepsThen(k: Kernel, l: Kernel, m: Kernel, a: set<Text>, b: set<Text>)
    requires Keeps(k, l, a) && Keeps(l, m, b) && b <= a
    ensures Keeps(k, m, a)
  {
    hide Coherent, FrozenMount;
  }

  lemma KeepsMore(k: Kernel, l: Kernel, a: set<Text>, b: set<Text>)
    requires Keeps(k, l, a) && a <= b
    ensures Keeps(k, l, b)
  {
  }

  lemma FrozenIfMounted(ms: seq<Mount>, id: Text, d: Device)
    requires FrozenMount(id, d) in ms
    ensures Frozen(ms, d)
  {
    var i :| 0 <= i < |ms| && ms[i] == FrozenMount(id, d);
    assert DiskOf(ms[i], d) && ms[i].readOnly;
  }

  lemma DriftKeeps(k: Kernel, c: Choice)
    requires Coherent(k.mounts)
    ensures Keeps(k, Drift(k, c), {})
  {
    hide Coherent, Frozen;
    var l := Drift(k, c);
    forall id, d | FrozenMount(id, d) in k.mounts && d in k.devices
      ensures l.devices[d].content == k.devices[d].content
    {
      FrozenIfMounted(k.mounts, id, d);
    }
  }

  lemma SetContentKeeps(k: Kernel, d: Device, content: Content)
    requires Coherent(k.mounts) && d in k.devices && !Frozen(k.mounts, d)
    ensures Keeps(k, SetContent(k, d, content), {})
  {
    hide Coherent, Frozen;
    forall id, e | FrozenMount(id, e) in k.mounts
      ensures e != d
    {
      FrozenIfMounted(k.mounts, id, e);
    }
  }

  lemma AppendKeeps(k: Kernel, m: Mount)
    requires Coherent(k.mounts)
    requires m.Disk? ==> forall i :: 0 <= i < |k.mounts| && DiskOf(k.mounts[i], m.device) ==> k.mounts[i].readOnly == m.readOnly
    ensures Keeps(k, k.(mounts := k.mounts + [m]), {})
  {
  }

  lemma MountDirInjective(a: Text, b: Text)
    requires MountDir(a) == MountDir(b)
    ensures a == b
  {
    hide CACHE_ROOT;
    assert MountDir(a)[|CACHE_ROOT|] == a && MountDir(b)[|CACHE_ROOT|] == b;
  }

  lemma StagingDirInjective(a: Text, b: Text)
    requires StagingDir(a) == StagingDir(b)
    ensures a == b
  {
    var i := |OVERLAY_ROOT|;
    assert StagingDir(a)[i] == StagingDir(b)[i];
    assert (Ascii("cache-") + a)[6..] == a && (Ascii("cache-") + b)[6..] == b;
  }

  lemma RemoveKeeps(k: Kernel, i: nat, except: set<Text>)
    requires Coherent(k.mounts) && i < |k.mounts|
    requires forall id :: k.mounts[i].point == MountDir(id) ==> id in except
    ensures Keeps(k, k.(mounts := RemoveMount(k.mounts, i)), except)
  {
    hide MountDir;
    var ms := RemoveMount(k.mounts, i);
    assert forall j :: 0 <= j < |ms| ==> ms[j] == k.mounts[if j < i then j else j + 1];
    forall id, d | id !in except && FrozenMount(id, d) in k.mounts
      ensures FrozenMount(id, d) in ms
    {
      var j :| 0 <= j < |k.mounts| && k.mounts[j] == FrozenMount(id, d);
      assert j != i;
      assert ms[if j < i then j else j - 1] == FrozenMount(id, d);
    }
  }

  lemma WritableIsNotFrozen(ms: seq<Mount>, m: Mount)
    requires Coherent(ms) && m in ms && m.Disk? && !m.readOnly
    ensures !Frozen(ms, m.device)
  {
    var i :| 0 <= i < |ms| && ms[i] == m;
    assert DiskOf(ms[i], m.device);
  }

  // ----- The calls, continuing from a kernel k0 -----

  lemma DriftOn(k0: Kernel, k: Kernel, c: Choice, e: set<Text>)
    requires Keeps(k0, k, e)
    ensures Keeps(k0, Drift(k, c), e)
  {
    hide Coherent, Drift;
    assert Coherent(k.mounts);
    DriftKeeps(k, c);
    KeepsThen(k0, k, Drift(k, c), e, {});
  }

  lemma SetContentOn(k0: Kernel, k: Kernel, d: Device, content: Content, e: set<Text>)
    requires Keeps(k0, k, e) && d in k.devices && !Frozen(k.mounts, d)
    ensures Keeps(k0, SetContent(k, d, content), e)
  {
    hide Coherent, Frozen, SetContent;
    SetContentKeeps(k, d, content);
    KeepsThen(k0, k, SetContent(k, d, content), e, {});
  }

  lemma AppendOn(k0: Kernel, k: Kernel, m: Mount, e: set<Text>)
    requires Keeps(k0, k, e)
    requires m.Disk? ==> forall i :: 0 <= i < |k.mounts| && DiskOf(k.mounts[i], m.device) ==> k.mounts[i].readOnly == m.readOnly
    ensures Keeps(k0, k.(mounts := k.mounts + [m]), e)
  {
    hide Coherent;
    AppendKeeps(k, m);
    KeepsThen(k0, k, k.(mounts := k.mounts + [m]), e, {});
  }

  lemma UnmountOn(k0: Kernel, k: Kernel, p: Location, c: Choice, e: set<Text>)
    requires Keeps(k0, k, e) && forall id :: p == MountDir(id) ==> id in e
    ensures Keeps(k0, Unmount(k, p, c).0, e)
  {
    hide Coherent, MountDir, Keeps, CanUnmount, Drift;
    DriftOn(k0, k, c, e);
    var k1 := Drift(k, c);
    if c.ok && CanUnmount(k1.mounts, p) {
      var i := UnmountsAt(k1.mounts, p);
      KeepsIsCoherent(k0, k1, e);
      RemoveKeeps(k1, i, e);
      KeepsThen(k0, k1, Unmount(k, p, c).0, e, e);
    }
  }

  lemma KeepsIsCoherent(k: Kernel, l: Kernel, e: set<Text>)
    requires Keeps(k, l, e)
    ensures Coherent(l.mounts) && l.devices.Keys == k.devices.Keys
  {
  }

  lemma UnmountsAt(ms: seq<Mount>, p: Location) returns (i: nat)
    requires CanUnmount(ms, p)
    ensures Top(ms, p) == Some(i) && i < |ms| && ms[i].point == p
  {
    i := Top(ms, p).value;
  }

  lemma UnmountDirOn(k0: Kernel, k: Kernel, id: Text, c: Choice, e: set<Text>)
    requires Keeps(k0, k, e) && id in e
    ensures Keeps(k0, Unmount(k, MountDir(id), c).0, e)
  {
    hide Keeps, Unmount;
    forall x | MountDir(id) == MountDir(x)
      ensures x in e
    {
      MountDirInjective(id, x);
    }
    UnmountOn(k0, k, MountDir(id), c, e);
  }

  lemma UnmountTargetOn(k0: Kernel, k: Kernel, target: Text, c: Choice, e: set<Text>)
    requires Keeps(k0, k, e) && AcceptableTarget(target)
    ensures Keeps(k0, Unmount(k, TargetPlace(target), c).0, e)
  {
    hide CACHE_ROOT, TargetPlace, Keeps, Unmount;
    UnmountOn(k0, k, TargetPlace(target), c, e);
  }

  lemma UnmountStagingOn(k0: Kernel, k: Kernel, binding: Text, c: Choice, e: set<Text>)
    requires Keeps(k0, k, e)
    ensures Keeps(k0, Unmount(k, StagingDir(binding), c).0, e)
  {
    hide Keeps, Unmount;
    forall id
      ensures StagingDir(binding) != MountDir(id)
    {
      assert |StagingDir(binding)| == 3 && |MountDir(id)| == 4;
    }
    UnmountOn(k0, k, StagingDir(binding), c, e);
  }

  lemma MountDiskOn(k0: Kernel, k: Kernel, d: Device, p: Location, readOnly: bool, c: Choice, e: set<Text>)
    requires Keeps(k0, k, e)
    ensures Keeps(k0, MountDisk(k, d, p, readOnly, c).0, e)
  {
    hide Keeps, Drift;
    DriftOn(k0, k, c, e);
    if MountDisk(k, d, p, readOnly, c).1 {
      AppendOn(k0, Drift(k, c), Disk(p, d, readOnly), e);
    }
  }

  lemma FormatOn(k0: Kernel, k: Kernel, d: Device, c: Choice, e: set<Text>)
    requires Keeps(k0, k, e) && d in k.devices && !Mounted(k.mounts, d)
    ensures Keeps(k0, Format(k, d, c).0, e)
  {
    DriftOn(k0, k, c, e);
    if c.ok {
      SetContentOn(k0, Drift(k, c), d, Content(None, None, c.blocks), e);
    }
  }

  /** Writing through a writable mount touches no frozen device. */
  lemma WriteOn(k0: Kernel, k: Kernel, m: Mount, content: Content, e: set<Text>)
    requires Keeps(k0, k, e) && m in k.mounts && m.Disk? && !m.readOnly && m.device in k.devices
    ensures Keeps(k0, SetContent(k, m.device, content), e)
  {
    hide Coherent, SetContent, Frozen;
    WritableIsNotFrozen(k.mounts, m);
    SetContentOn(k0, k, m.device, content, e);
  }

  lemma CreateSourceOn(k0: Kernel, k: Kernel, dir: Location, c: Choice, e: set<Text>)
    requires Keeps(k0, k, e)
    ensures Keeps(k0, CreateSource(k, dir, c).0, e)
  {
    hide Keeps, SetContent, Drift, Volume;
    DriftOn(k0, k, c, e);
    var k1 := Drift(k, c);
    var r := CreateSource(k, dir, c).0;
    var v := Volume(k1.mounts, dir, SOURCE);
    if r != k1 && v.Some? {
      WriteOn(k0, k1, v.value, k1.devices[v.value.device].content.(source := Some(ImportRoundTrip.EMPTY_SOURCE), blocks := c.blocks), e);
    }
  }

  lemma WriteSentinelOn(k0: Kernel, k: Kernel, dir: Location, key: Text, c: Choice, e: set<Text>)
    requires Keeps(k0, k, e)
    ensures Keeps(k0, WriteSentinel(k, dir, key, c).0, e)
  {
    hide Keeps, SetContent, Drift, Volume, SentinelText;
    DriftOn(k0, k, c, e);
    var k1 := Drift(k, c);
    var r := WriteSentinel(k, dir, key, c).0;
    var v := Volume(k1.mounts, dir, SENTINEL);
    if r != k1 && v.Some? {
      WriteOn(k0, k1, v.value, k1.devices[v.value.device].content.(sentinel := Some(SentinelText(key)), blocks := c.blocks), e);
    }
  }

  lemma ImportIntoOn(k0: Kernel, k: Kernel, dir: Location, es: seq<ImportEntry>, data: seq<byte>, c: Choice, e: set<Text>)
    requires Keeps(k0, k, e)
    ensures Keeps(k0, ImportInto(k, dir, es, data, c).0, e)
  {
    hide Keeps, SetContent, Drift, Volume, ApplyBatch;
    DriftOn(k0, k, c, e);
    var k1 := Drift(k, c);
    var v := Volume(k1.mounts, dir, SOURCE);
    if v.Some? && !v.value.readOnly && v.value.device in k1.devices && k1.devices[v.value.device].content.source.Some? {
      var (after, progress) := ApplyBatch(k1.devices[v.value.device].content.source.value, es, data, c.faults);
      WriteOn(k0, k1, v.value, k1.devices[v.value.device].content.(source := Some(after), blocks := c.blocks), e);
    }
  }

  lemma SetReadOnlyOn(k0: Kernel, k: Kernel, d: Device, c: Choice, e: set<Text>)
    requires Keeps(k0, k, e)
    ensures Keeps(k0, SetReadOnly(k, d, c).0, e)
  {
    hide Coherent, Drift;
    DriftOn(k0, k, c, e);
  }

  // ----- Rolling back -----

  predicate AcceptableTargets(overlays: seq<Overlay>)
  {
    forall i :: 0 <= i < |overlays| ==> AcceptableTarget(overlays[i].target)
  }

  lemma {:induction false} RollbackOverlaysOn(k0: Kernel, s: System, overlays: seq<Overlay>, n: nat, os: Script, at: nat, e: set<Text>)
    requires Keeps(k0, s.kernel, e) && n <= |overlays| && AcceptableTargets(overlays)
    ensures var r := RollbackOverlays(s, overlays, n, os, at).0;
            Keeps(k0, r.kernel, e) && r.manager.images == s.manager.images
    decreases n
  {
    hide Keeps, Unmount, TargetPlace, StagingDir, AcceptableTarget;
    if n > 0 {
      var o := overlays[n - 1];
      UnmountTargetOn(k0, s.kernel, o.target, os(at), e);
      var (k1, target) := Unmount(s.kernel, TargetPlace(o.target), os(at));
      if target {
        UnmountStagingOn(k0, k1, o.binding, os(at + 1), e);
        var (k2, staging) := Unmount(k1, StagingDir(o.binding), os(at + 1));
        if staging {
          var released := s.manager.(bindings := s.manager.bindings - {o.binding}, targets := s.manager.targets - {o.target});
          RollbackOverlaysOn(k0, System(k2, released), overlays, n - 1, os, at + 2, e);
        }
      }
    }
  }

  lemma RollbackOn(k0: Kernel, s: System, id: Text, os: Script, at: nat, e: set<Text>)
    requires Keeps(k0, s.kernel, e) && id in e
    requires id in s.manager.images ==> AcceptableTargets(s.manager.images[id].overlays)
    ensures var r := RollbackImage(s, id, os, at).0;
            Keeps(k0, r.kernel, e) && r.manager.images == s.manager.images - {id}
  {
    hide Keeps, Unmount, RollbackOverlays, AcceptableTargets, Drift, MountDir;
    if id in s.manager.images {
      var image := s.manager.images[id];
      var forgotten := s.(manager := s.manager.(images := s.manager.images - {id}));
      RollbackOverlaysOn(k0, forgotten, image.overlays, |image.overlays|, os, at + 2, e);
      var (s1, ok) := RollbackOverlays(forgotten, image.overlays, |image.overlays|, os, at + 2);
      if ok {
        UnmountDirOn(k0, s1.kernel, id, os(at), e);
        DriftOn(k0, Unmount(s1.kernel, MountDir(id), os(at)).0, os(at + 1), e);
      }
    }
  }

  // ----- Each request keeps the invariant -----

  lemma ImageStaysOk(env: Env, k: Kernel, l: Kernel, e: set<Text>, id: Text, image: Image)
    requires Keeps(k, l, e) && id !in e && ImageOk(env, k, id, image)
    ensures ImageOk(env, l, id, image)
  {
    hide AcceptableTarget, TreeKey, Coherent;
  }

  /** A request about one image keeps the invariant if it leaves the others' frozen mounts alone. */
  lemma InvFrom(env: Env, s: System, r: System, id: Text)
    requires Inv(env, s) && Keeps(s.kernel, r.kernel, {id})
    requires r.manager.images - {id} == s.manager.images - {id}
    requires id in r.manager.images ==> ImageOk(env, r.kernel, id, r.manager.images[id])
    ensures Inv(env, r)
  {
    hide Keeps, ImageOk;
    KeepsIsCoherent(s.kernel, r.kernel, {id});
    forall x | x in r.manager.images
      ensures ImageOk(env, r.kernel, x, r.manager.images[x])
    {
      if x != id {
        assert x in r.manager.images - {id} && x in s.manager.images - {id};
        assert s.manager.images[x] == (s.manager.images - {id})[x];
        assert r.manager.images[x] == (r.manager.images - {id})[x];
        ImageStaysOk(env, s.kernel, r.kernel, {id}, x, s.manager.images[x]);
      }
    }
  }

  lemma Begin(env: Env, s: System, id: Text)
    requires Inv(env, s)
    ensures Keeps(s.kernel, s.kernel, {}) && Keeps(s.kernel, s.kernel, {id})
    ensures id in s.manager.images ==> AcceptableTargets(s.manager.images[id].overlays)
  {
    KeepsStart(s.kernel);
    KeepsMore(s.kernel, s.kernel, {}, {id});
    if id in s.manager.images {
      assert ImageOk(env, s.kernel, id, s.manager.images[id]);
    }
  }

  lemma BeginBuildKeepsInv(env: Env, s: System, id: Text, serial: Text, size: u64, key: Text, os: Script)
    requires Inv(env, s)
    ensures Inv(env, BeginBuild(s, id, serial, size, key, os).0)
    ensures Keeps(s.kernel, BeginBuild(s, id, serial, size, key, os).0.kernel, {id})
  {
    hide Inv, Keeps, ImageOk, Drift, Discover, Format, EmptyDirectory, FinishBuild, MountDir;
    Begin(env, s, id);
    if id !in s.manager.images {
      var k := s.kernel;
      var k0 := Drift(k, os(0));
      DriftOn(k, k, os(0), {id});
      var r := BeginBuild(s, id, serial, size, key, os).0;
      var found := Discover(k0, serial, size, false, os(0));
      if found.Found? && os(1).ok {
        var (k1, formatted) := Format(k0, found.device, os(2));
        FormatOn(k, k0, found.device, os(2), {id});
        if formatted {
          var (k2, empty) := EmptyDirectory(k1, MountDir(id), os(3));
          EmptyDirectoryOn(k, k1, MountDir(id), os(3), {id});
          if empty {
            FinishBuildOn(k, s.(kernel := k2), id, found.device, size, key, os);
            NewImageOk(env, r.kernel, id, found.device, size, key);
          }
        }
      }
      InvFrom(env, s, r, id);
    }
  }

  lemma EmptyDirectoryOn(k0: Kernel, k: Kernel, p: Location, c: Choice, e: set<Text>)
    requires Keeps(k0, k, e)
    ensures Keeps(k0, EmptyDirectory(k, p, c).0, e)
  {
    hide Keeps, Drift;
    DriftOn(k0, k, c, e);
  }

  lemma FinishBuildOn(k: Kernel, s: System, id: Text, d: Device, size: u64, key: Text, os: Script)
    requires Keeps(k, s.kernel, {id}) && id !in s.manager.images
    ensures var r := FinishBuild(s, id, d, size, key, os).0;
            && Keeps(k, r.kernel, {id})
            && (r.manager == s.manager || r.manager.images == s.manager.images[id := Image(d, size, key, Building, [])])
  {
    hide Keeps, MountDisk, Unmount, Drift, CreateSource, MountDir;
    var e := {id};
    MountDiskOn(k, s.kernel, d, MountDir(id), false, os(4), e);
    var (k3, mounted) := MountDisk(s.kernel, d, MountDir(id), false, os(4));
    if mounted {
      DriftOn(k, k3, os(5), e);
      var k4 := Drift(k3, os(5));
      UnmountDirOn(k, k4, id, os(6), e);
      CreateSourceOn(k, k4, MountDir(id), os(7), e);
      UnmountDirOn(k, CreateSource(k4, MountDir(id), os(7)).0, id, os(8), e);
    }
  }

  lemma NewImageOk(env: Env, k: Kernel, id: Text, d: Device, size: u64, key: Text)
    ensures ImageOk(env, k, id, Image(d, size, key, Building, []))
  {
  }

  lemma RejectHitOn(k: Kernel, s: System, id: Text, reason: Reason, os: Script, at: nat)
    requires Keeps(k, s.kernel, {id})
    ensures var r := RejectHit(s, id, reason, os, at).0; Keeps(k, r.kernel, {id}) && r.manager == s.manager
  {
    hide Keeps, Unmount, Drift, MountDir;
    UnmountDirOn(k, s.kernel, id, os(at), {id});
    DriftOn(k, Unmount(s.kernel, MountDir(id), os(at)).0, os(at + 1), {id});
  }

  /** Hashing below a mount just made reads the device just mounted. */
  lemma HashReadsTheNewMount(env: Env, k: Kernel, id: Text, d: Device, readOnly: bool, c: Choice, key: Text)
    requires k.mounts != [] && k.mounts[|k.mounts| - 1] == Disk(MountDir(id), d, readOnly)
    requires HashSource(env.hash, env.lists, k, MountDir(id), c).1 == Some(key)
    ensures HasKey(env, HashSource(env.hash, env.lists, k, MountDir(id), c).0, d, key)
  {
    hide TreeKey, MountDir, Drift;
    var p := MountDir(id) + [SOURCE];
    assert MountDir(id) <= p;
    assert Top(k.mounts, p) == Some(|k.mounts| - 1);
  }

  lemma OpenHitKeepsInv(env: Env, s: System, id: Text, serial: Text, size: u64, key: Text, os: Script)
    requires Inv(env, s)
    ensures Inv(env, OpenHit(env, s, id, serial, size, key, os).0)
    ensures Keeps(s.kernel, OpenHit(env, s, id, serial, size, key, os).0.kernel, {id})
  {
    hide Inv, Keeps, ImageOk, Drift, Discover, EmptyDirectory, MountDisk, CheckHit, Unmount, MountDir;
    Begin(env, s, id);
    if id !in s.manager.images {
      var k, e := s.kernel, {id};
      DriftOn(k, k, os(0), e);
      var k0 := Drift(k, os(0));
      var r := OpenHit(env, s, id, serial, size, key, os).0;
      var found := Discover(k0, serial, size, true, os(0));
      if found.Found? {
        var (k1, empty) := EmptyDirectory(k0, MountDir(id), os(1));
        EmptyDirectoryOn(k, k0, MountDir(id), os(1), e);
        if empty {
          var (k2, mounted) := MountDisk(k1, found.device, MountDir(id), true, os(2));
          MountDiskOn(k, k1, found.device, MountDir(id), true, os(2), e);
          if mounted {
            var k3 := Drift(k2, os(3));
            DriftOn(k, k2, os(3), e);
            UnmountDirOn(k, k3, id, os(4), e);
            MountedLast(k1, found.device, MountDir(id), true, os(2));
            CheckHitOn(env, k, s.(kernel := k3), id, found.device, size, key, os);
          }
        }
      }
      InvFrom(env, s, r, id);
    }
  }

  lemma MountedLast(k: Kernel, d: Device, p: Location, readOnly: bool, c: Choice)
    requires MountDisk(k, d, p, readOnly, c).1
    ensures MountDisk(k, d, p, readOnly, c).0.mounts == k.mounts + [Disk(p, d, readOnly)]
  {
  }

  lemma CheckHitOn(env: Env, k: Kernel, s: System, id: Text, d: Device, size: u64, key: Text, os: Script)
    requires Keeps(k, s.kernel, {id}) && id !in s.manager.images
    requires s.kernel.mounts != [] && s.kernel.mounts[|s.kernel.mounts| - 1] == FrozenMount(id, d)
    ensures var r := CheckHit(env, s, id, d, size, key, os).0;
            && Keeps(k, r.kernel, {id})
            && (r.manager == s.manager
                || (r.manager.images == s.manager.images[id := Image(d, size, key, Validated, [])]
                    && ImageOk(env, r.kernel, id, Image(d, size, key, Validated, []))))
  {
    hide Keeps, Drift, RejectHit, Volume, ParseSentinel, MountDir, TreeKey;
    var e := {id};
    var (k4, sentinel) := ReadSentinel(s.kernel, MountDir(id), os(5));
    DriftOn(k, s.kernel, os(5), e);
    RejectHitOn(k, s.(kernel := k4), id, InvalidSourceTree, os, 10);
    RejectHitOn(k, s.(kernel := k4), id, SourceKeyMismatch, os, 10);
    var (k5, computed) := HashSource(env.hash, env.lists, k4, MountDir(id), os(6));
    DriftOn(k, k4, os(6), e);
    RejectHitOn(k, s.(kernel := k5), id, InvalidSourceTree, os, 10);
    RejectHitOn(k, s.(kernel := k5), id, SourceKeyMismatch, os, 10);
    if computed == Some(key) {
      HashReadsTheNewMount(env, k4, id, d, true, os(6), key);
      assert k5.mounts[|k5.mounts| - 1] == FrozenMount(id, d);
    }
  }

  lemma RejectKeepsInv(env: Env, s: System, k1: Kernel, id: Text, action: Action, reason: Reason, os: Script, at: nat)
    requires Inv(env, s) && Keeps(s.kernel, k1, {id})
    ensures Inv(env, Reject(s.(kernel := k1), id, action, reason, os, at).0)
    ensures Keeps(s.kernel, Reject(s.(kernel := k1), id, action, reason, os, at).0.kernel, {id})
    ensures Inv(env, RollbackImage(s.(kernel := k1), id, os, at).0)
    ensures Keeps(s.kernel, RollbackImage(s.(kernel := k1), id, os, at).0.kernel, {id})
  {
    hide Inv, Keeps, ImageOk, RollbackImage, AcceptableTargets;
    Begin(env, s, id);
    RollbackOn(s.kernel, s.(kernel := k1), id, os, at, {id});
    var r := RollbackImage(s.(kernel := k1), id, os, at).0;
    assert r.manager.images - {id} == s.manager.images - {id};
    InvFrom(env, s, r, id);
  }

  /** A step that leaves the registry alone keeps the invariant if every frozen mount stays. */
  lemma KernelStepKeepsInv(env: Env, s: System, k1: Kernel, id: Text)
    requires Inv(env, s)
    requires Keeps(s.kernel, k1, {}) || (Keeps(s.kernel, k1, {id}) && id in s.manager.images && s.manager.images[id].phase == Building)
    ensures Inv(env, s.(kernel := k1))
  {
    hide Keeps, AcceptableTarget;
    if Keeps(s.kernel, k1, {}) {
      KeepsMore(s.kernel, k1, {}, {id});
      if id in s.manager.images {
        ImageStaysOk(env, s.kernel, k1, {}, id, s.manager.images[id]);
      }
    } else {
      assert ImageOk(env, s.kernel, id, s.manager.images[id]);
    }
    InvFrom(env, s, s.(kernel := k1), id);
  }

  lemma TakeBatchKeepsInv(env: Env, s: System, id: Text, es: seq<ImportEntry>, dataLen: u32, data: seq<byte>, os: Script)
    requires Inv(env, s)
    ensures Inv(env, TakeBatch(s, id, es, dataLen, data, os).0)
    ensures Keeps(s.kernel, TakeBatch(s, id, es, dataLen, data, os).0.kernel, {id})
  {
    hide Inv, Keeps, ImportInto, Reject, MountDir;
    Begin(env, s, id);
    var k1 := ImportInto(s.kernel, MountDir(id), es, data, os(0)).0;
    ImportIntoOn(s.kernel, s.kernel, MountDir(id), es, data, os(0), {});
    KernelStepKeepsInv(env, s, k1, id);
    KeepsMore(s.kernel, k1, {}, {id});
    RejectKeepsInv(env, s, k1, id, ImportsBatch, MountFailed, os, 1);
  }

  lemma SealKeepsInv(env: Env, s: System, id: Text, key: Text, os: Script)
    requires Inv(env, s)
    ensures Inv(env, Seal(env, s, id, key, os).0)
    ensures Keeps(s.kernel, Seal(env, s, id, key, os).0.kernel, {id})
  {
    hide Inv, Keeps, ImageOk, Drift, HashSource, WriteSentinel, Unmount, Reject, FinishSeal, MountDir;
    Begin(env, s, id);
    if id in s.manager.images && s.manager.images[id].phase == Building && s.manager.images[id].key == key {
      var k, e := s.kernel, {id};
      var (k1, computed) := HashSource(env.hash, env.lists, k, MountDir(id), os(0));
      HashSourceOn(env, k, k, MountDir(id), os(0), e);
      RejectKeepsInv(env, s, k1, id, SealsBuild, InvalidSourceTree, os, 20);
      RejectKeepsInv(env, s, k1, id, SealsBuild, SourceKeyMismatch, os, 20);
      var (k2, wrote) := WriteSentinel(k1, MountDir(id), key, os(1));
      WriteSentinelOn(k, k1, MountDir(id), key, os(1), e);
      KernelStepKeepsInv(env, s, k2, id);
      DriftOn(k, k2, os(2), e);
      var k3 := Drift(k2, os(2));
      KernelStepKeepsInv(env, s, k3, id);
      UnmountDirOn(k, k3, id, os(3), e);
      var k4 := Unmount(k3, MountDir(id), os(3)).0;
      KernelStepKeepsInv(env, s, k4, id);
      FinishSealKeepsInv(env, s, k4, id, key, os);
    }
  }

  lemma HashSourceOn(env: Env, k0: Kernel, k: Kernel, dir: Location, c: Choice, e: set<Text>)
    requires Keeps(k0, k, e)
    ensures Keeps(k0, HashSource(env.hash, env.lists, k, dir, c).0, e)
    ensures HashSource(env.hash, env.lists, k, dir, c).0.mounts == k.mounts
  {
    hide Keeps, Drift, Volume, TreeKey;
    DriftOn(k0, k, c, e);
  }

  lemma FinishSealKeepsInv(env: Env, s: System, k4: Kernel, id: Text, key: Text, os: Script)
    requires Inv(env, s) && Keeps(s.kernel, k4, {id})
    requires id in s.manager.images && s.manager.images[id].phase == Building && s.manager.images[id].key == key
    ensures Inv(env, FinishSeal(env, s.(kernel := k4), id, key, os).0)
    ensures Keeps(s.kernel, FinishSeal(env, s.(kernel := k4), id, key, os).0.kernel, {id})
  {
    hide Inv, Keeps, ImageOk, Drift, SetReadOnly, MountDisk, HashSource, Reject, MountDir;
    var k, e, d := s.kernel, {id}, s.manager.images[id].device;
    var k5 := SetReadOnly(k4, d, os(4)).0;
    SetReadOnlyOn(k, k4, d, os(4), e);
    KernelStepKeepsInv(env, s, k5, id);
    var k6 := Drift(k5, os(5));
    DriftOn(k, k5, os(5), e);
    KernelStepKeepsInv(env, s, k6, id);
    var (k7, mounted) := MountDisk(k6, d, MountDir(id), true, os(6));
    MountDiskOn(k, k6, d, MountDir(id), true, os(6), e);
    KernelStepKeepsInv(env, s, k7, id);
    var k8 := Drift(k7, os(7));
    DriftOn(k, k7, os(7), e);
    KernelStepKeepsInv(env, s, k8, id);
    if mounted {
      MountedLast(k6, d, MountDir(id), true, os(6));
      FinalHashKeepsInv(env, s, k8, id, key, os);
    }
  }

  /** The last hash of a seal decides: the image becomes valid, is rolled back, or stays as it was. */
  lemma FinalHashKeepsInv(env: Env, s: System, k8: Kernel, id: Text, key: Text, os: Script)
    requires Inv(env, s) && Keeps(s.kernel, k8, {id})
    requires id in s.manager.images && s.manager.images[id].phase == Building && s.manager.images[id].key == key
    requires k8.mounts != [] && k8.mounts[|k8.mounts| - 1] == FrozenMount(id, s.manager.images[id].device)
    ensures var image, (k9, remounted) := s.manager.images[id], HashSource(env.hash, env.lists, k8, MountDir(id), os(8));
            && Inv(env, s.(kernel := k9))
            && Keeps(s.kernel, k9, {id})
            && Keeps(s.kernel, Reject(s.(kernel := k9), id, SealsBuild, SourceKeyMismatch, os, 20).0.kernel, {id})
            && Inv(env, Reject(s.(kernel := k9), id, SealsBuild, SourceKeyMismatch, os, 20).0)
            && (remounted == Some(key) ==>
                  Inv(env, System(k9, s.manager.(images := s.manager.images[id := image.(phase := Validated)]))))
  {
    hide Inv, Keeps, HashSource, Reject, MountDir, HasKey, AcceptableTarget;
    var image, d := s.manager.images[id], s.manager.images[id].device;
    var (k9, remounted) := HashSource(env.hash, env.lists, k8, MountDir(id), os(8));
    HashSourceOn(env, s.kernel, k8, MountDir(id), os(8), {id});
    KernelStepKeepsInv(env, s, k9, id);
    RejectKeepsInv(env, s, k9, id, SealsBuild, SourceKeyMismatch, os, 20);
    if remounted == Some(key) {
      HashReadsTheNewMount(env, k8, id, d, true, os(8), key);
      assert k9.mounts[|k9.mounts| - 1] == FrozenMount(id, d);
      TrackedIsOk(env, s, id);
      assert ImageOk(env, k9, id, image.(phase := Validated));
      var r := System(k9, s.manager.(images := s.manager.images[id := image.(phase := Validated)]));
      assert r.manager.images - {id} == s.manager.images - {id};
      InvFrom(env, s, r, id);
    }
  }

  lemma TrackedIsOk(env: Env, s: System, id: Text)
    requires Inv(env, s) && id in s.manager.images
    ensures ImageOk(env, s.kernel, id, s.manager.images[id])
  {
  }

  lemma MountCacheOverlayOn(k0: Kernel, k: Kernel, id: Text, key: Text, binding: Text, target: Text, os: Script)
    requires Keeps(k0, k, {})
    ensures Keeps(k0, MountCacheOverlay(k, id, key, binding, target, os).0, {})
  {
    hide Keeps, Drift, EmptyDirectory, Unmount, StagingDir, TargetPlace, MountDir, LowerOf;
    var staging := StagingDir(binding);
    var k1 := Drift(k, os(0));
    DriftOn(k0, k, os(0), {});
    var k2 := EmptyDirectory(k1, staging, os(1)).0;
    EmptyDirectoryOn(k0, k1, staging, os(1), {});
    var k3 := Drift(k2, os(2));
    DriftOn(k0, k2, os(2), {});
    var k4 := MountPlain(k3, staging, os(3)).0;
    DriftOn(k0, k3, os(3), {});
    AppendOn(k0, Drift(k3, os(3)), Plain(staging), {});
    var k5 := Drift(k4, os(4));
    DriftOn(k0, k4, os(4), {});
    UnmountStagingOn(k0, k5, binding, os(5), {});
    var k6 := Drift(k5, os(6));
    DriftOn(k0, k5, os(6), {});
    var k7 := MountOverlayOn(k6, MountDir(id), TargetPlace(target), id, key, os(7)).0;
    var k6d := Drift(k6, os(7));
    DriftOn(k0, k6, os(7), {});
    AppendOn(k0, k6d, OverlayOn(TargetPlace(target), LowerOf(k6d.mounts, MountDir(id)), id, key), {});
    UnmountStagingOn(k0, k7, binding, os(8), {});
  }

  lemma BindOverlayKeepsInv(env: Env, s: System, id: Text, binding: Text, target: Text, os: Script)
    requires Inv(env, s)
    ensures Inv(env, BindOverlay(s, id, binding, target, os).0)
    ensures Keeps(s.kernel, BindOverlay(s, id, binding, target, os).0.kernel, {id})
  {
    hide Inv, Keeps, MountCacheOverlay, Reject, AcceptableTarget, MountDir, HasKey;
    Begin(env, s, id);
    if id in s.manager.images && s.manager.images[id].phase == Validated && AcceptableTarget(target) {
      var image := s.manager.images[id];
      var (k1, ok) := MountCacheOverlay(s.kernel, id, image.key, binding, target, os);
      MountCacheOverlayOn(s.kernel, s.kernel, id, image.key, binding, target, os);
      KeepsMore(s.kernel, k1, {}, {id});
      RejectKeepsInv(env, s, k1, id, MountsOverlay, MountFailed, os, 20);
      if ok && binding !in s.manager.bindings && target !in s.manager.targets {
        var r := BindOverlay(s, id, binding, target, os).0;
        TrackedIsOk(env, s, id);
        ImageStaysOk(env, s.kernel, k1, {}, id, image);
        assert ImageOk(env, k1, id, image.(overlays := image.overlays + [Overlay(binding, target)]));
        assert r.manager.images - {id} == s.manager.images - {id};
        InvFrom(env, s, r, id);
      }
    }
  }

  lemma AbortKeepsInv(env: Env, s: System, id: Text, os: Script)
    requires Inv(env, s)
    ensures Inv(env, Abort(s, id, os).0)
    ensures Keeps(s.kernel, Abort(s, id, os).0.kernel, {id})
  {
    hide Inv, Keeps, RollbackImage;
    Begin(env, s, id);
    RejectKeepsInv(env, s, s.kernel, id, AbortsBuild, MountFailed, os, 0);
    assert s.(kernel := s.kernel) == s;
  }

  lemma HandleKeepsInv(env: Env, s: System, request: Request, data: seq<byte>, os: Script)
    requires Inv(env, s)
    ensures Inv(env, Handle(env, s, request, data, os).0)
    ensures Keeps(s.kernel, Handle(env, s, request, data, os).0.kernel, {request.image})
  {
    hide Inv, Keeps, Valid, BeginBuild, OpenHit, TakeBatch, Seal, Abort, BindOverlay;
    Begin(env, s, request.image);
    match request
    case PrepareBuild(id, serial, size, key, _) => BeginBuildKeepsInv(env, s, id, serial, size, key, os);
    case PrepareHit(id, serial, size, key) => OpenHitKeepsInv(env, s, id, serial, size, key, os);
    case ImportBatch(id, entries, dataLen) => TakeBatchKeepsInv(env, s, id, entries, dataLen, data, os);
    case SealBuild(id, key) => SealKeepsInv(env, s, id, key, os);
    case AbortBuild(id) => AbortKeepsInv(env, s, id, os);
    case MountOverlay(id, binding, target) => BindOverlayKeepsInv(env, s, id, binding, target, os);
  }
}
