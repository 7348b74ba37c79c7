/**
 The trees on the devices stay trees a file system can hold, in every run in which the devices start so and others
 leave them so; hence an overlay shows exactly the tree the host hashed.
 */
module CacheSound {
  import opened Bytes
  import opened Paths
  import opened SourceTree
  import opened TreeHash
  import opened CacheProtocol
  import opened Import
  import opened ImportRoundTrip
  import opened CacheKernel
  import opened CacheManager
  import opened CacheInvariant
  import opened CacheRuns
  import opened CacheOverlayRuns

  predicate SoundContent(content: Content)
  {
    content.source.Some? ==> WellFormed(content.source.value)
  }

  /** Every device holds a well-formed tree, if it holds one. */
  predicate Sound(k: Kernel)
  {
    forall d :: d in k.devices ==> SoundContent(k.devices[d].content)
  }

  /** What others make of the devices is sound. */
  ghost predicate SoundChoice(c: Choice)
  {
    c.world.Some? ==> forall d: Device :: SoundContent(c.world.value(d))
  }

  ghost predicate SoundScript(os: Script)
  {
    forall n: nat :: SoundChoice(os(n))
  }

  // ----- The calls -----

  lemma DriftSound(k: Kernel, c: Choice)
    requires Sound(k) && SoundChoice(c)
    ensures Sound(Drift(k, c))
  {
    hide SoundContent, Frozen;
  }

  lemma SetContentSound(k: Kernel, d: Device, content: Content)
    requires Sound(k) && d in k.devices && SoundContent(content)
    ensures Sound(SetContent(k, d, content))
  {
    hide SoundContent;
  }

  /** Calls that change mounts only. */
  lemma MountCallsSound(k: Kernel, c: Choice)
    requires Sound(k) && SoundChoice(c)
    ensures Sound(Drift(k, c))
    ensures forall p :: Sound(Unmount(k, p, c).0) && Sound(EmptyDirectory(k, p, c).0) && Sound(MountPlain(k, p, c).0)
    ensures forall d, p, readOnly :: Sound(MountDisk(k, d, p, readOnly, c).0)
    ensures forall dir, p, image, key :: Sound(MountOverlayOn(k, dir, p, image, key, c).0)
  {
    hide SoundContent, Drift, Top, LowerOf, CanUnmount;
    DriftSound(k, c);
  }

  lemma ReadsSound(env: Env, k: Kernel, dir: Location, c: Choice)
    requires Sound(k) && SoundChoice(c)
    ensures Sound(HashSource(env.hash, env.lists, k, dir, c).0) && Sound(ReadSentinel(k, dir, c).0)
  {
    hide SoundContent, Drift, Volume, TreeKey, ParseSentinel;
    DriftSound(k, c);
  }

  lemma FormatSound(k: Kernel, d: Device, c: Choice)
    requires Sound(k) && SoundChoice(c) && d in k.devices
    ensures Sound(Format(k, d, c).0)
  {
    DriftSound(k, c);
    if c.ok {
      SetContentSound(Drift(k, c), d, Content(None, None, c.blocks));
    }
  }

  lemma CreateSourceSound(k: Kernel, dir: Location, c: Choice)
    requires Sound(k) && SoundChoice(c)
    ensures Sound(CreateSource(k, dir, c).0)
  {
    hide Drift, Volume, SetContent, Sound;
    DriftSound(k, c);
    var k1 := Drift(k, c);
    var v := Volume(k1.mounts, dir, SOURCE);
    if c.ok && v.Some? && v.value.device in k1.devices {
      EmptySourceIsSound(k1.devices[v.value.device].content.sentinel, c.blocks);
      SetContentSound(k1, v.value.device, k1.devices[v.value.device].content.(source := Some(EMPTY_SOURCE), blocks := c.blocks));
    }
  }

  lemma EmptySourceIsSound(sentinel: Option<seq<byte>>, blocks: seq<byte>)
    ensures SoundContent(Content(Some(EMPTY_SOURCE), sentinel, blocks))
  {
  }

  lemma WriteSentinelSound(k: Kernel, dir: Location, key: Text, c: Choice)
    requires Sound(k) && SoundChoice(c)
    ensures Sound(WriteSentinel(k, dir, key, c).0)
  {
    hide Drift, Volume, SetContent, SentinelText, WellFormed;
    DriftSound(k, c);
    var k1 := Drift(k, c);
    var v := Volume(k1.mounts, dir, SENTINEL);
    if c.ok && v.Some? && v.value.device in k1.devices {
      SetContentSound(k1, v.value.device, k1.devices[v.value.device].content.(sentinel := Some(SentinelText(key)), blocks := c.blocks));
    }
  }

  lemma SetReadOnlySound(k: Kernel, d: Device, c: Choice)
    requires Sound(k) && SoundChoice(c)
    ensures Sound(SetReadOnly(k, d, c).0)
  {
    hide SoundContent, Drift;
    DriftSound(k, c);
  }

  lemma ImportIntoSound(k: Kernel, dir: Location, es: seq<ImportEntry>, data: seq<byte>, c: Choice)
    requires Sound(k) && SoundChoice(c) && forall i :: 0 <= i < |es| ==> ValidImportPath(es[i].path)
    ensures Sound(ImportInto(k, dir, es, data, c).0)
  {
    hide Drift, Volume, SetContent, WellFormed, ApplyFrom, ValidImportPath;
    DriftSound(k, c);
    var k1 := Drift(k, c);
    var v := Volume(k1.mounts, dir, SOURCE);
    if v.Some? && v.value.device in k1.devices && k1.devices[v.value.device].content.source.Some? {
      var content := k1.devices[v.value.device].content;
      ImportKeepsWellFormed(content.source.value, es, 0, data, 0, c.faults);
      var after := ApplyBatch(content.source.value, es, data, c.faults).0;
      SetContentSound(k1, v.value.device, content.(source := Some(after), blocks := c.blocks));
    }
  }

  // ----- The requests -----

  lemma {:induction false} RollbackOverlaysSound(s: System, overlays: seq<Overlay>, n: nat, os: Script, at: nat)
    requires Sound(s.kernel) && SoundScript(os) && n <= |overlays|
    ensures Sound(RollbackOverlays(s, overlays, n, os, at).0.kernel)
    decreases n
  {
    hide Sound, SoundChoice, Unmount, TargetPlace, StagingDir;
    if n > 0 {
      var o := overlays[n - 1];
      MountCallsSound(s.kernel, os(at));
      var (k1, target) := Unmount(s.kernel, TargetPlace(o.target), os(at));
      MountCallsSound(k1, os(at + 1));
      var (k2, staging) := Unmount(k1, StagingDir(o.binding), os(at + 1));
      if target && staging {
        var released := s.manager.(bindings := s.manager.bindings - {o.binding}, targets := s.manager.targets - {o.target});
        RollbackOverlaysSound(System(k2, released), overlays, n - 1, os, at + 2);
      }
    }
  }

  lemma RollbackSound(s: System, id: Text, os: Script, at: nat)
    requires Sound(s.kernel) && SoundScript(os)
    ensures Sound(RollbackImage(s, id, os, at).0.kernel)
  {
    hide Sound, SoundChoice, Unmount, RollbackOverlays, MountDir, Drift;
    if id in s.manager.images {
      var overlays := s.manager.images[id].overlays;
      var forgotten := s.(manager := s.manager.(images := s.manager.images - {id}));
      RollbackOverlaysSound(forgotten, overlays, |overlays|, os, at + 2);
      var s1 := RollbackOverlays(forgotten, overlays, |overlays|, os, at + 2).0;
      MountCallsSound(s1.kernel, os(at));
      MountCallsSound(Unmount(s1.kernel, MountDir(id), os(at)).0, os(at + 1));
    }
  }

  lemma BeginBuildSound(s: System, id: Text, serial: Text, size: u64, key: Text, os: Script)
    requires Sound(s.kernel) && SoundScript(os)
    ensures Sound(BeginBuild(s, id, serial, size, key, os).0.kernel)
  {
    hide Sound, SoundChoice, Unmount, MountDir, Drift, Discover, Format, EmptyDirectory, MountDisk, CreateSource;
    MountCallsSound(s.kernel, os(0));
    var k0 := Drift(s.kernel, os(0));
    var found := Discover(k0, serial, size, false, os(0));
    if found.Found? {
      FormatSound(k0, found.device, os(2));
      var k1 := Format(k0, found.device, os(2)).0;
      MountCallsSound(k1, os(3));
      var k2 := EmptyDirectory(k1, MountDir(id), os(3)).0;
      MountCallsSound(k2, os(4));
      var k3 := MountDisk(k2, found.device, MountDir(id), false, os(4)).0;
      MountCallsSound(k3, os(5));
      var k4 := Drift(k3, os(5));
      MountCallsSound(k4, os(6));
      CreateSourceSound(k4, MountDir(id), os(7));
      MountCallsSound(CreateSource(k4, MountDir(id), os(7)).0, os(8));
    }
  }

  lemma RejectHitSound(s: System, id: Text, os: Script)
    requires Sound(s.kernel) && SoundScript(os)
    ensures forall reason :: Sound(RejectHit(s, id, reason, os, 10).0.kernel)
  {
    hide Sound, SoundChoice, Unmount, MountDir, Drift;
    MountCallsSound(s.kernel, os(10));
    MountCallsSound(Unmount(s.kernel, MountDir(id), os(10)).0, os(11));
  }

  lemma OpenHitSound(env: Env, s: System, id: Text, serial: Text, size: u64, key: Text, os: Script)
    requires Sound(s.kernel) && SoundScript(os)
    ensures Sound(OpenHit(env, s, id, serial, size, key, os).0.kernel)
  {
    hide Sound, SoundChoice, Unmount, MountDir, Drift, Discover, EmptyDirectory, MountDisk, ReadSentinel, HashSource, RejectHit;
    MountCallsSound(s.kernel, os(0));
    var k0 := Drift(s.kernel, os(0));
    var found := Discover(k0, serial, size, true, os(0));
    if found.Found? {
      MountCallsSound(k0, os(1));
      var k1 := EmptyDirectory(k0, MountDir(id), os(1)).0;
      MountCallsSound(k1, os(2));
      var k2 := MountDisk(k1, found.device, MountDir(id), true, os(2)).0;
      MountCallsSound(k2, os(3));
      var k3 := Drift(k2, os(3));
      MountCallsSound(k3, os(4));
      ReadsSound(env, k3, MountDir(id), os(5));
      var k4 := ReadSentinel(k3, MountDir(id), os(5)).0;
      RejectHitSound(s.(kernel := k4), id, os);
      ReadsSound(env, k4, MountDir(id), os(6));
      RejectHitSound(s.(kernel := HashSource(env.hash, env.lists, k4, MountDir(id), os(6)).0), id, os);
    }
  }

  lemma TakeBatchSound(s: System, id: Text, es: seq<ImportEntry>, dataLen: u32, data: seq<byte>, os: Script)
    requires Sound(s.kernel) && SoundScript(os) && forall i :: 0 <= i < |es| ==> ValidImportPath(es[i].path)
    ensures Sound(TakeBatch(s, id, es, dataLen, data, os).0.kernel)
  {
    hide Sound, SoundChoice, MountDir, ImportInto, RollbackImage;
    ImportIntoSound(s.kernel, MountDir(id), es, data, os(0));
    RollbackSound(s.(kernel := ImportInto(s.kernel, MountDir(id), es, data, os(0)).0), id, os, 1);
  }

  lemma SealSound(env: Env, s: System, id: Text, key: Text, os: Script)
    requires Sound(s.kernel) && SoundScript(os)
    ensures Sound(Seal(env, s, id, key, os).0.kernel)
  {
    hide Sound, SoundChoice, Unmount, MountDir, Drift, HashSource, WriteSentinel, RollbackImage, FinishSeal;
    ReadsSound(env, s.kernel, MountDir(id), os(0));
    var k1 := HashSource(env.hash, env.lists, s.kernel, MountDir(id), os(0)).0;
    RollbackSound(s.(kernel := k1), id, os, 20);
    WriteSentinelSound(k1, MountDir(id), key, os(1));
    var k2 := WriteSentinel(k1, MountDir(id), key, os(1)).0;
    MountCallsSound(k2, os(2));
    var k3 := Drift(k2, os(2));
    MountCallsSound(k3, os(3));
    if id in s.manager.images {
      FinishSealSound(env, s.(kernel := Unmount(k3, MountDir(id), os(3)).0), id, key, os);
    }
  }

  lemma FinishSealSound(env: Env, s: System, id: Text, key: Text, os: Script)
    requires Sound(s.kernel) && SoundScript(os) && id in s.manager.images
    ensures Sound(FinishSeal(env, s, id, key, os).0.kernel)
  {
    hide Sound, SoundChoice, MountDir, Drift, HashSource, SetReadOnly, MountDisk, RollbackImage;
    var d := s.manager.images[id].device;
    SetReadOnlySound(s.kernel, d, os(4));
    var k5 := SetReadOnly(s.kernel, d, os(4)).0;
    MountCallsSound(k5, os(5));
    var k6 := Drift(k5, os(5));
    MountCallsSound(k6, os(6));
    var k7 := MountDisk(k6, d, MountDir(id), true, os(6)).0;
    MountCallsSound(k7, os(7));
    var k8 := Drift(k7, os(7));
    ReadsSound(env, k8, MountDir(id), os(8));
    RollbackSound(s.(kernel := HashSource(env.hash, env.lists, k8, MountDir(id), os(8)).0), id, os, 20);
  }

  lemma MountCacheOverlaySound(k: Kernel, id: Text, key: Text, binding: Text, target: Text, os: Script)
    requires Sound(k) && SoundScript(os)
    ensures Sound(MountCacheOverlay(k, id, key, binding, target, os).0)
  {
    hide Sound, SoundChoice, Unmount, MountDir, Drift, EmptyDirectory, MountPlain, MountOverlayOn, StagingDir, TargetPlace;
    var staging := StagingDir(binding);
    MountCallsSound(k, os(0));
    var k1 := Drift(k, os(0));
    MountCallsSound(k1, os(1));
    var k2 := EmptyDirectory(k1, staging, os(1)).0;
    MountCallsSound(k2, os(2));
    var k3 := Drift(k2, os(2));
    MountCallsSound(k3, os(3));
    var k4 := MountPlain(k3, staging, os(3)).0;
    MountCallsSound(k4, os(4));
    var k5 := Drift(k4, os(4));
    MountCallsSound(k5, os(5));
    MountCallsSound(k5, os(6));
    var k6 := Drift(k5, os(6));
    MountCallsSound(k6, os(7));
    MountCallsSound(MountOverlayOn(k6, MountDir(id), TargetPlace(target), id, key, os(7)).0, os(8));
  }

  lemma BindOverlaySound(s: System, id: Text, binding: Text, target: Text, os: Script)
    requires Sound(s.kernel) && SoundScript(os)
    ensures Sound(BindOverlay(s, id, binding, target, os).0.kernel)
  {
    hide Sound, SoundChoice, MountCacheOverlay, RollbackImage, AcceptableTarget;
    if id in s.manager.images {
      var key := s.manager.images[id].key;
      MountCacheOverlaySound(s.kernel, id, key, binding, target, os);
      RollbackSound(s.(kernel := MountCacheOverlay(s.kernel, id, key, binding, target, os).0), id, os, 20);
    }
  }

  lemma ServeSound(env: Env, s: System, ask: Ask)
    requires Sound(s.kernel) && SoundScript(ask.os)
    ensures Sound(Serve(env, s, ask).0.kernel)
  {
    hide Sound, SoundScript, BeginBuild, OpenHit, TakeBatch, Seal, BindOverlay, RollbackImage, ValidDigest, ValidToken, ValidImageSize,
      ValidImportPath;
    match ask.request
    case PrepareBuild(id, serial, size, key, _) => BeginBuildSound(s, id, serial, size, key, ask.os);
    case PrepareHit(id, serial, size, key) => OpenHitSound(env, s, id, serial, size, key, ask.os);
    case ImportBatch(id, entries, dataLen) =>
      if ValidBatch(entries, dataLen) {
        assert forall i :: 0 <= i < |entries| ==> ValidEntry(entries[i]);
        TakeBatchSound(s, id, entries, dataLen, ask.data, ask.os);
      }
    case SealBuild(id, key) => SealSound(env, s, id, key, ask.os);
    case AbortBuild(id) => RollbackSound(s, id, ask.os, 0);
    case MountOverlay(id, binding, target) => BindOverlaySound(s, id, binding, target, ask.os);
  }

  /** Imports, formatting and sealing keep the trees sound, wherever the system fails. */
  lemma {:induction false} RunSound(env: Env, s: System, asks: seq<Ask>)
    requires Sound(s.kernel) && forall i :: 0 <= i < |asks| ==> SoundScript(asks[i].os)
    ensures Sound(Run(env, s, asks).kernel)
    decreases |asks|
  {
    hide Sound, SoundScript, Serve;
    if asks != [] {
      var before := asks[..|asks| - 1];
      RunSound(env, s, before);
      ServeSound(env, Run(env, s, before), asks[|asks| - 1]);
    }
  }

  /**
   In every safe run over sound devices, an overlay that is mounted shows the tree the host hashed for its key, unless
   the two trees are a hash collision.
   */
  lemma OverlaysShowTheHostTree(env: Env, k: Kernel, asks: seq<Ask>, m: Mount, host: Tree, hostLists: Listing)
    requires CleanStart(k) && SafeRun(env, System(k, NO_IMAGES), asks)
    requires Sound(k) && forall i :: 0 <= i < |asks| ==> SoundScript(asks[i].os)
    requires forall t :: WellFormed(t) ==> Honest(t, env.lists(t))
    requires m.OverlayOn? && m in Run(env, System(k, NO_IMAGES), asks).kernel.mounts
    requires WellFormed(host) && Honest(host, hostLists) && TreeKey(env.hash, host, hostLists) == Some(m.key)
    ensures var l := Run(env, System(k, NO_IMAGES), asks).kernel;
            && m.lower.SourceOf? && Frozen(l.mounts, m.lower.device) && HasKey(env, l, m.lower.device, m.key)
            && var t := l.devices[m.lower.device].content.source.value;
               t == host || Collision(env.hash, TreeStream(t, env.lists(t)).value, TreeStream(host, hostLists).value)
  {
    hide CleanStart, SafeRun, SoundScript, Run, WellFormed, Honest, TreeKey, Frozen;
    OverlaysShowTheirImages(env, k, asks, m);
    RunSound(env, System(k, NO_IMAGES), asks);
    var l := Run(env, System(k, NO_IMAGES), asks).kernel;
    FrozenIfMounted(l.mounts, m.image, m.lower.device);
    KeyedDeviceHoldsTheHostTree(env, l, m.lower.device, m.key, host, hostLists);
  }
}
