/**
 What the manager answers and why: which requests it turns away at once, what it says when the device or its content is
 not as expected, and what it says when one system call fails.
 */
module CacheAnswers {
  import opened Bytes
  import opened Utf8
  import opened Paths
  import opened SourceTree
  import opened TreeHash
  import opened CacheProtocol
  import opened Import
  import opened CacheKernel
  import opened CacheManager
  import opened CachePipeline

  // ----- Requests that are turned away -----

  /** Why a request cannot be served in a state, before the system is asked for anything. */
  function Refusal(s: System, request: Request, data: seq<byte>): (r: Option<Failure>)
  {
    var tracked := request.image in s.manager.images;
    var building := tracked && s.manager.images[request.image].phase == Building;
    if !Valid(request) then Some(InvalidRequest)
    else
      match request
      case PrepareBuild(_, _, _, _, _) => if tracked then Some(AlreadyPrepared) else None
      case PrepareHit(_, _, _, _) => if tracked then Some(AlreadyPrepared) else None
      case ImportBatch(_, _, dataLen) =>
        if |data| != dataLen then Some(LengthChanged)
        else if !tracked then Some(NotPrepared)
        else if !building then Some(NotBuilding)
        else None
      case SealBuild(id, key) =>
        if !tracked then Some(NotPrepared)
        else if !building then Some(NotBuilding)
        else if s.manager.images[id].key != key then Some(KeyChanged)
        else None
      case AbortBuild(_) => None
      case MountOverlay(_, binding, target) =>
        if !tracked then Some(NotPrepared)
        else if building then Some(NotValidated)
        else if binding in s.manager.bindings || target in s.manager.targets then Some(AlreadyUsed)
        else if !AcceptableTarget(target) then Some(BadTarget)
        else None
  }

  /** The failures that mean the system let the manager down, rather than the caller. */
  predicate SystemFailure(f: Failure)
  {
    f == SystemError || f == LeftMounted || f == RollbackFailed
  }

  /** A request that cannot be served changes nothing and is told why; any other failure is the system's. */
  lemma RequestsAreTurnedAway(env: Env, s: System, request: Request, data: seq<byte>, os: Script)
    ensures match Refusal(s, request, data)
            case Some(f) => Handle(env, s, request, data, os) == (s, Failed(f)) && !SystemFailure(f)
            case None => var reply := Handle(env, s, request, data, os).1; reply.Failed? ==> SystemFailure(reply.failure)
  {
    hide Valid, AcceptableTarget, Discover, Drift, Format, EmptyDirectory, MountDisk, Unmount, CreateSource, ReadSentinel,
      HashSource, ImportInto, WriteSentinel, SetReadOnly, HashRaw, MountCacheOverlay, RollbackImage, MountDir;
  }

  // ----- Devices -----

  predicate Present(k: Kernel, d: Device, serial: Text)
  {
    d in k.devices && k.devices[d].serial == serial
  }

  predicate Ordinary(k: Kernel, d: Device)
    requires d in k.devices
  {
    !IsRoot(k.mounts, d) && k.devices[d].virtio && k.devices[d].block
  }

  /** The scan names what is wrong with the device: each reason is given exactly when the checks before it pass. */
  lemma DiscoveryNamesTheCause(k: Kernel, serial: Text, size: u64, readOnly: bool, c: Choice)
    ensures var d, r := c.pick, Discover(k, serial, size, readOnly, c);
            if !Present(k, d, serial) then r == NoDevice(DeviceNotFound)
            else if c.trouble.Some? then r == NoDevice(c.trouble.value)
            else
              && (r == NoDevice(RootDevice) <==> IsRoot(k.mounts, d))
              && (r == NoDevice(NonVirtioDevice) <==> !IsRoot(k.mounts, d) && !(k.devices[d].virtio && k.devices[d].block))
              && (r == NoDevice(SizeMismatch) <==> Ordinary(k, d) && k.devices[d].size != size)
              && (r == NoDevice(ReadOnlyMismatch) <==> Ordinary(k, d) && k.devices[d].size == size && k.devices[d].readOnly != readOnly)
              && (r == NoDevice(DeviceMounted) <==>
                    Ordinary(k, d) && k.devices[d].size == size && k.devices[d].readOnly == readOnly && Mounted(k.mounts, d))
              && (r == Found(d) <==> Usable(k, d, serial, size, readOnly))
  {
  }

  /** A system in which nobody else interferes, the device is `d`, and at most the given call fails. */
  ghost predicate Calm(os: Script, d: Device, failing: Option<nat>)
  {
    forall i: nat :: os(i).world.None? && os(i).pick == d && os(i).trouble.None? && (os(i).ok <==> failing != Some(i))
  }

  /** A preparation that finds no device says why, and leaves everything as it was. */
  lemma NoDeviceNoChange(env: Env, s: System, id: Text, serial: Text, size: u64, key: Text, d: Device, os: Script)
    requires id !in s.manager.images && Calm(os, d, None)
    ensures var r := Discover(s.kernel, serial, size, false, os(0));
            r.NoDevice? ==> BeginBuild(s, id, serial, size, key, os) == (s, Answer(Rejected(PreparesBuild, id, r.reason)))
    ensures var r := Discover(s.kernel, serial, size, true, os(0));
            r.NoDevice? ==> OpenHit(env, s, id, serial, size, key, os) == (s, Answer(Rejected(PreparesHit, id, r.reason)))
  {
    hide Discover;
    assert os(0).world.None?;
  }

  // ----- Hits -----

  /** What is wrong with an image, if anything, given the key it should have. */
  function Flaw(env: Env, content: Content, key: Text): (r: Option<Reason>)
  {
    match content.sentinel
    case None => Some(InvalidSourceTree)
    case Some(b) =>
      if ParseSentinel(b).None? then Some(InvalidSourceTree)
      else if ParseSentinel(b) != Some(key) then Some(SourceKeyMismatch)
      else TreeFlaw(env, content.source, key)
  }

  function TreeFlaw(env: Env, source: Option<Tree>, key: Text): (r: Option<Reason>)
  {
    if source.None? then Some(InvalidSourceTree)
    else
      match TreeKey(env.hash, source.value, env.lists(source.value))
      case None => Some(InvalidSourceTree)
      case Some(computed) => if computed != key then Some(SourceKeyMismatch) else None
  }

  /** A device that can be opened at its directory. */
  predicate CanOpen(s: System, id: Text, serial: Text, size: u64, d: Device, readOnly: bool)
  {
    id !in s.manager.images && Usable(s.kernel, d, serial, size, readOnly) && NoneAt(s.kernel.mounts, MountDir(id))
  }

  lemma HitMounted(env: Env, s: System, id: Text, serial: Text, size: u64, key: Text, d: Device, os: Script, f: Option<nat>)
    requires CanOpen(s, id, serial, size, d, true) && Calm(os, d, f) && (f.None? || f.value > 3)
    ensures OpenHit(env, s, id, serial, size, key, os) ==
            CheckHit(env, s.(kernel := MountedAt(s.kernel, id, d, true)), id, d, size, key, os)
  {
    hide MountDir, Mounted, IsRoot, CheckHit;
    var k := s.kernel;
    NotRoot(k.mounts, d);
    assert EmptyDirectory(k, MountDir(id), os(1)) == (k, true);
    assert MountDisk(k, d, MountDir(id), true, os(2)) == (MountedAt(k, id, d, true), true);
    assert os(0).world.None? && os(3).world.None? && os(3).ok;
  }

  lemma HitRejected(s: System, id: Text, d: Device, reason: Reason, os: Script, f: Option<nat>)
    requires Calm(os, d, f) && (f.None? || f.value < 10)
    ensures RejectHit(s.(kernel := MountedAt(s.kernel, id, d, true)), id, reason, os, 10)
         == (s, Answer(Rejected(PreparesHit, id, reason)))
  {
    hide MountDir, Unmount;
    assert os(10).ok && os(11).ok && os(10).world.None? && os(11).world.None?;
    NewMountComesOff(s.kernel, id, d, true, os(10));
  }

  /**
   With nobody interfering, a hit on a usable device is accepted exactly if its sentinel and the key of its tree are the
   expected key; otherwise it is rejected for the first flaw found, and everything is as it was.
   */
  lemma HitIsJudgedByItsContent(env: Env, s: System, id: Text, serial: Text, size: u64, key: Text, d: Device, os: Script)
    requires CanOpen(s, id, serial, size, d, true) && Calm(os, d, None)
    ensures OpenHit(env, s, id, serial, size, key, os) ==
            match Flaw(env, s.kernel.devices[d].content, key)
            case None => (HitState(s, id, d, size, key), Answer(Ready(PreparesHit, id, None, Some(key), None)))
            case Some(reason) => (s, Answer(Rejected(PreparesHit, id, reason)))
  {
    hide MountDir, Volume, TreeKey, ParseSentinel, OpenHit, RejectHit, NoneAt, Mounted;
    HitMounted(env, s, id, serial, size, key, d, os, None);
    NewMountLeads(s.kernel.mounts, id, d, true, SOURCE);
    NewMountLeads(s.kernel.mounts, id, d, true, SENTINEL);
    HitRejected(s, id, d, InvalidSourceTree, os, None);
    HitRejected(s, id, d, SourceKeyMismatch, os, None);
    assert os(5).ok && os(6).ok && os(5).world.None? && os(6).world.None?;
  }

  /** What a hit answers when one call fails: on the way to the mount, mounting, or reading the image. */
  lemma HitWhenOneCallFails(env: Env, s: System, id: Text, serial: Text, size: u64, key: Text, d: Device, os: Script, n: nat)
    requires CanOpen(s, id, serial, size, d, true) && Calm(os, d, Some(n)) && Flaw(env, s.kernel.devices[d].content, key).None?
    requires n in {1, 2, 3, 5, 6}
    ensures OpenHit(env, s, id, serial, size, key, os) ==
            (s, if n == 2 then Answer(Rejected(PreparesHit, id, MountFailed))
                else if n >= 5 then Answer(Rejected(PreparesHit, id, InvalidSourceTree))
                else Failed(SystemError))
  {
    hide MountDir, Volume, TreeKey, ParseSentinel, RejectHit, Mounted, IsRoot, Unmount;
    var k := s.kernel;
    assert forall i: nat :: i != n ==> os(i).ok;
    if n < 5 {
      NotRoot(k.mounts, d);
      assert EmptyDirectory(k, MountDir(id), os(1)) == (k, n != 1);
      assert n > 2 ==> MountDisk(k, d, MountDir(id), true, os(2)) == (MountedAt(k, id, d, true), true);
      assert n == 2 ==> MountDisk(k, d, MountDir(id), true, os(2)) == (k, false);
      assert n == 3 ==> !os(3).ok && os(3).world.None?;
      NewMountComesOff(k, id, d, true, os(4));
    } else {
      HitMounted(env, s, id, serial, size, key, d, os, Some(n));
      NewMountLeads(k.mounts, id, d, true, SENTINEL);
      HitRejected(s, id, d, InvalidSourceTree, os, Some(n));
      assert !os(n).ok && os(5).world.None? && os(6).world.None?;
    }
  }

  /** A rejected hit that cannot be taken down again is reported as left mounted. */
  lemma HitLeftMounted(env: Env, s: System, id: Text, serial: Text, size: u64, key: Text, d: Device, os: Script, n: nat)
    requires CanOpen(s, id, serial, size, d, true) && Calm(os, d, Some(n)) && Flaw(env, s.kernel.devices[d].content, key).Some?
    requires n in {10, 11}
    ensures OpenHit(env, s, id, serial, size, key, os) ==
            (if n == 10 then s.(kernel := MountedAt(s.kernel, id, d, true)) else s, Failed(LeftMounted))
  {
    hide MountDir, Volume, TreeKey, ParseSentinel, OpenHit, NoneAt, Mounted, Unmount;
    var k2 := MountedAt(s.kernel, id, d, true);
    assert forall i: nat :: (i != n ==> os(i).ok) && os(i).world.None?;
    assert !os(n).ok;
    HitMounted(env, s, id, serial, size, key, d, os, Some(n));
    NewMountLeads(s.kernel.mounts, id, d, true, SOURCE);
    NewMountLeads(s.kernel.mounts, id, d, true, SENTINEL);
    if n == 10 {
      RefusedUnmount(k2, MountDir(id), os(10));
    } else {
      NewMountComesOff(s.kernel, id, d, true, os(10));
    }
  }

  lemma RefusedUnmount(k: Kernel, p: Location, c: Choice)
    requires !c.ok && c.world.None?
    ensures Unmount(k, p, c) == (k, false)
  {
  }

  // ----- Builds -----

  /** Everything but what one device holds is as it was. */
  ghost predicate OnlyContent(k: Kernel, l: Kernel, d: Device)
  {
    && l.mounts == k.mounts && l.devices.Keys == k.devices.Keys
    && (forall e :: e in k.devices && e != d ==> l.devices[e] == k.devices[e])
    && (d in k.devices ==> l.devices[d] == k.devices[d].(content := l.devices[d].content))
  }

  /** What a build answers when one call fails: finding the formatter, formatting, or making the mount. */
  lemma BuildWhenOneCallFails(s: System, id: Text, serial: Text, size: u64, key: Text, d: Device, os: Script, n: nat)
    requires CanOpen(s, id, serial, size, d, false) && Calm(os, d, Some(n))
    requires n in {1, 2, 3, 4, 5, 7}
    ensures var (r, reply) := BeginBuild(s, id, serial, size, key, os);
            && r.manager == s.manager && OnlyContent(s.kernel, r.kernel, d) && (n <= 2 ==> r == s)
            && reply == match n
                        case 1 => Answer(Rejected(PreparesBuild, id, FormatterUnavailable))
                        case 2 => Answer(Rejected(PreparesBuild, id, FormatterFailed))
                        case 4 => Answer(Rejected(PreparesBuild, id, MountFailed))
                        case _ => Failed(SystemError)
  {
    hide MountDir, Mounted, IsRoot, Unmount, Volume;
    var k := s.kernel;
    NotRoot(k.mounts, d);
    assert forall i: nat :: i != n ==> os(i).ok;
    assert forall i: nat :: os(i).world.None?;
    assert os(0).pick == d && os(0).trouble.None? && !os(n).ok;
    if n > 2 {
      var k1 := Format(k, d, os(2)).0;
      assert k1 == SetContent(k, d, Content(None, None, os(2).blocks));
      assert EmptyDirectory(k1, MountDir(id), os(3)) == (k1, n != 3);
      if n > 4 {
        var k3 := MountedAt(k1, id, d, false);
        assert MountDisk(k1, d, MountDir(id), false, os(4)) == (k3, true);
        NewMountComesOff(k1, id, d, false, os(6));
        NewMountComesOff(k1, id, d, false, os(8));
      }
    }
  }

  // ----- Batches and seals -----

  /** An image that is being built and was mounted last. */
  ghost predicate BuildingOn(s: System, ms: seq<Mount>, id: Text, d: Device, key: Text)
  {
    && id in s.manager.images
    && s.manager.images[id].phase == Building && s.manager.images[id].key == key && s.manager.images[id].device == d
    && s.manager.images[id].overlays == []
    && s.kernel.mounts == ms + [Disk(MountDir(id), d, false)]
    && d in s.kernel.devices && !Mounted(ms, d)
  }

  /** The image is gone, from the registry and from the mount table. */
  ghost predicate Forgotten(s: System, r: System, ms: seq<Mount>, id: Text)
  {
    && r.manager == s.manager.(images := s.manager.images - {id})
    && r.kernel.mounts == ms
  }

  lemma RejectForgets(s: System, ms: seq<Mount>, id: Text, d: Device, key: Text, action: Action, reason: Reason, os: Script, at: nat)
    requires BuildingOn(s, ms, id, d, key) && os(at).ok && os(at + 1).ok && os(at).world.None? && os(at + 1).world.None?
    ensures var (r, reply) := Reject(s, id, action, reason, os, at);
            Forgotten(s, r, ms, id) && r.kernel.devices == s.kernel.devices && reply == Answer(Rejected(action, id, reason))
  {
    hide MountDir, Unmount, Mounted;
    var k := s.kernel.(mounts := ms);
    assert s.kernel == MountedAt(k, id, d, false);
    NewMountComesOff(k, id, d, false, os(at));
  }

  /** Aborting an image that cannot be taken down completely is reported, and forgets the image all the same. */
  lemma AbortWhenOneCallFails(s: System, ms: seq<Mount>, id: Text, d: Device, key: Text, os: Script, n: nat)
    requires BuildingOn(s, ms, id, d, key) && Calm(os, d, Some(n)) && n in {0, 1}
    ensures var (r, reply) := Abort(s, id, os);
            && r.manager == s.manager.(images := s.manager.images - {id}) && r.kernel.devices == s.kernel.devices
            && r.kernel.mounts == (if n == 0 then s.kernel.mounts else ms)
            && reply == Failed(RollbackFailed)
  {
    hide MountDir, Unmount, Mounted;
    var k := s.kernel.(mounts := ms);
    assert s.kernel == MountedAt(k, id, d, false);
    assert !os(n).ok && os(0).world.None? && os(1).world.None?;
    if n == 0 {
      RefusedUnmount(s.kernel, MountDir(id), os(0));
    } else {
      assert os(0).ok;
      NewMountComesOff(k, id, d, false, os(0));
    }
  }

  /** A batch that cannot be imported is rejected, and the image with it. */
  lemma BadBatchForgetsTheImage(s: System, ms: seq<Mount>, id: Text, d: Device, key: Text, es: seq<ImportEntry>, data: seq<byte>, os: Script)
    requires BuildingOn(s, ms, id, d, key) && Calm(os, d, None) && |data| < U32_LIMIT
    requires var source := s.kernel.devices[d].content.source; source.Some? && ApplyBatch(source.value, es, data, os(0).faults).1.Broke?
    ensures var (r, reply) := TakeBatch(s, id, es, |data|, data, os);
            Forgotten(s, r, ms, id) && reply == Answer(Rejected(ImportsBatch, id, MountFailed))
  {
    hide MountDir, Volume, Mounted, Reject, ApplyBatch;
    NewMountLeads(ms, id, d, false, SOURCE);
    var k1 := ImportInto(s.kernel, MountDir(id), es, data, os(0)).0;
    assert forall i: nat :: os(i).ok && os(i).world.None?;
    RejectForgets(s.(kernel := k1), ms, id, d, key, ImportsBatch, MountFailed, os, 1);
  }

  /** With nobody interfering, sealing a tree that is not what the key says forgets the image and says what is wrong. */
  lemma SealIsJudgedByTheTree(env: Env, s: System, ms: seq<Mount>, id: Text, d: Device, key: Text, os: Script)
    requires BuildingOn(s, ms, id, d, key) && Calm(os, d, None) && TreeFlaw(env, s.kernel.devices[d].content.source, key).Some?
    ensures var (r, reply) := Seal(env, s, id, key, os);
            && Forgotten(s, r, ms, id) && r.kernel.devices == s.kernel.devices
            && reply == Answer(Rejected(SealsBuild, id, TreeFlaw(env, s.kernel.devices[d].content.source, key).value))
  {
    hide MountDir, Volume, Mounted, Reject, TreeKey;
    NewMountLeads(ms, id, d, false, SOURCE);
    assert forall i: nat :: os(i).ok && os(i).world.None?;
    RejectForgets(s, ms, id, d, key, SealsBuild, InvalidSourceTree, os, 20);
    RejectForgets(s, ms, id, d, key, SealsBuild, SourceKeyMismatch, os, 20);
  }

  /** When one call of a seal fails, only an unreadable tree is a rejection; the image stays in building otherwise. */
  lemma SealWhenOneCallFails(env: Env, s: System, ms: seq<Mount>, id: Text, d: Device, key: Text, os: Script, n: nat)
    requires BuildingOn(s, ms, id, d, key) && Calm(os, d, Some(n)) && n <= 8
    requires TreeFlaw(env, s.kernel.devices[d].content.source, key).None?
    ensures var (r, reply) := Seal(env, s, id, key, os);
            if n == 0 then Forgotten(s, r, ms, id) && reply == Answer(Rejected(SealsBuild, id, InvalidSourceTree))
            else r.manager == s.manager && reply == Failed(SystemError)
  {
    hide MountDir, Mounted, Reject, TreeKey, FinishSeal, Unmount, WriteSentinel;
    NewMountLeads(ms, id, d, false, SOURCE);
    assert forall i: nat :: (i != n ==> os(i).ok) && os(i).world.None?;
    assert !os(n).ok;
    var k := s.kernel;
    if n == 0 {
      RejectForgets(s, ms, id, d, key, SealsBuild, InvalidSourceTree, os, 20);
    } else {
      assert HashSource(env.hash, env.lists, k, MountDir(id), os(0)) == (k, Some(key));
      var k2 := WriteSentinel(k, MountDir(id), key, os(1)).0;
      var k4 := Unmount(k2, MountDir(id), os(3)).0;
      FailedCalls(k, k2, id, key, os, n);
      if 3 < n {
        FinishWhenOneCallFails(env, s.(kernel := k4), id, key, os, n);
      }
    }
  }

  lemma FailedCalls(k: Kernel, k2: Kernel, id: Text, key: Text, os: Script, n: nat)
    requires !os(n).ok
    ensures n == 1 ==> !WriteSentinel(k, MountDir(id), key, os(1)).1
    ensures n == 3 ==> !Unmount(k2, MountDir(id), os(3)).1
  {
  }

  lemma FinishWhenOneCallFails(env: Env, s: System, id: Text, key: Text, os: Script, n: nat)
    requires id in s.manager.images && 3 < n <= 8 && !os(n).ok
    ensures var (r, reply) := FinishSeal(env, s, id, key, os);
            r.manager == s.manager && reply == Failed(SystemError)
  {
    hide Reject, MountDir, Drift, Volume;
  }

  // ----- Overlays -----

  lemma StagingComesOff(k: Kernel, p: Location, c: Choice)
    requires c.ok && c.world.None?
    ensures Unmount(k.(mounts := k.mounts + [Plain(p)]), p, c) == (k, true)
  {
    var ns := k.mounts + [Plain(p)];
    assert Top(ns, p) == Some(|k.mounts|);
    assert RemoveMount(ns, |k.mounts|) == k.mounts;
  }

  /** A failing call leaves no mount behind, except that a failure to create the upper directories leaves the staging mount. */
  lemma OverlayMountWhenOneCallFails(k: Kernel, id: Text, key: Text, d: Device, binding: Text, target: Text, os: Script, n: nat)
    requires NoneAt(k.mounts, StagingDir(binding)) && Calm(os, d, Some(n)) && n in {0, 1, 2, 3, 4, 6, 7}
    ensures MountCacheOverlay(k, id, key, binding, target, os) ==
            (if n == 6 then k.(mounts := k.mounts + [Plain(StagingDir(binding))]) else k, false)
  {
    hide StagingDir, MountDir, TargetPlace, Unmount, LowerOf;
    assert forall i: nat :: (i != n ==> os(i).ok) && os(i).world.None?;
    assert !os(n).ok;
    var st := StagingDir(binding);
    assert EmptyDirectory(k, st, os(1)) == (k, n != 1);
    StagingComesOff(k, st, os(5));
    StagingComesOff(k, st, os(8));
  }

  lemma ImageComesOff(k: Kernel, ms: seq<Mount>, id: Text, d: Device, binding: Text, staged: bool, c: Choice)
    requires c.ok && c.world.None?
    requires var after := if staged then [Plain(StagingDir(binding))] else []; k.mounts == ms + [Disk(MountDir(id), d, true)] + after
    ensures var after := if staged then [Plain(StagingDir(binding))] else [];
            Unmount(k, MountDir(id), c) == (k.(mounts := ms + after), true)
  {
    StagingOff(binding, id);
    hide MountDir, StagingDir;
    assert Top(k.mounts, MountDir(id)) == Some(|ms|);
    assert RemoveMount(k.mounts, |ms|) == ms + (if staged then [Plain(StagingDir(binding))] else []);
  }

  lemma StagingOff(binding: Text, id: Text)
    ensures !(StagingDir(binding) <= MountDir(id)) && !(MountDir(id) <= StagingDir(binding))
  {
    assert Ascii("mnt")[0] != Ascii("tmp")[0];
    assert StagingDir(binding)[0] == Ascii("mnt") && MountDir(id)[0] == Ascii("tmp");
  }

  /** When one call of mounting an overlay fails, the overlay is rejected and the image is forgotten. */
  lemma OverlayWhenOneCallFails(s: System, ms: seq<Mount>, id: Text, d: Device, binding: Text, target: Text, os: Script, n: nat)
    requires id in s.manager.images && s.manager.images[id].phase == Validated && s.manager.images[id].overlays == []
    requires s.kernel.mounts == ms + [Disk(MountDir(id), d, true)] && NoneAt(s.kernel.mounts, StagingDir(binding))
    requires binding !in s.manager.bindings && target !in s.manager.targets && AcceptableTarget(target)
    requires Calm(os, d, Some(n)) && n in {0, 1, 2, 3, 4, 6, 7}
    ensures var (r, reply) := BindOverlay(s, id, binding, target, os);
            && r.manager == s.manager.(images := s.manager.images - {id})
            && r.kernel.mounts == ms + (if n == 6 then [Plain(StagingDir(binding))] else [])
            && reply == Answer(Rejected(MountsOverlay, id, MountFailed))
  {
    hide StagingDir, MountDir, MountCacheOverlay, AcceptableTarget, Unmount, NoneAt;
    OverlayMountWhenOneCallFails(s.kernel, id, s.manager.images[id].key, d, binding, target, os, n);
    var k1 := MountCacheOverlay(s.kernel, id, s.manager.images[id].key, binding, target, os).0;
    assert k1.mounts == ms + [Disk(MountDir(id), d, true)] + (if n == 6 then [Plain(StagingDir(binding))] else []);
    assert os(20).ok && os(21).ok && os(20).world.None? && os(21).world.None?;
    ImageComesOff(k1, ms, id, d, binding, n == 6, os(20));
  }
}
