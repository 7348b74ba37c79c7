/** The mount-cache manager: one function per request, over the manager's registry and the kernel. */
module CacheManager {
  import opened Bytes
  import opened Utf8
  import opened Snapshot
  import opened Paths
  import opened SourceTree
  import opened TreeHash
  import opened CacheProtocol
  import opened CacheKernel

  // ----- State -----

  datatype Phase = Building | Validated

  datatype Overlay = Overlay(binding: Text, target: Text)

  datatype Image = Image(device: Device, size: u64, key: Text, phase: Phase, overlays: seq<Overlay>)

  datatype Manager = Manager(images: map<Text, Image>, bindings: set<Text>, targets: set<Text>)

  datatype System = System(kernel: Kernel, manager: Manager)

  datatype Failure =
    | InvalidRequest | AlreadyPrepared | NotPrepared | NotBuilding | NotValidated | KeyChanged | AlreadyUsed
    | BadTarget | LengthChanged | SystemError | LeftMounted | RollbackFailed

  datatype Reply = Answer(response: Response) | Failed(failure: Failure)

  /** BLAKE3, and the order in which the file system lists each tree. */
  datatype Env = Env(hash: Hash, lists: Tree -> Listing)

  // ----- Where things are mounted -----

  const CACHE_ROOT: Location := [Ascii("tmp"), Ascii("lsb"), Ascii("cache-images")]
  const OVERLAY_ROOT: Location := [Ascii("mnt"), Ascii(".overlay")]

  function MountDir(id: Text): (p: Location)
  {
    CACHE_ROOT + [id]
  }

  function StagingDir(binding: Text): (p: Location)
  {
    OVERLAY_ROOT + [Ascii("cache-") + binding]
  }

  /** The components of a path: empty ones and "." are skipped. */
  function Steps(cs: seq<Name>): (p: Location)
  {
    if cs == [] then []
    else (if cs[0] == [] || cs[0] == [DOT] then [] else [cs[0]]) + Steps(cs[1..])
  }

  function TargetPlace(target: Text): (p: Location)
  {
    Steps(Split(target))
  }

  /** `validate_target`. */
  predicate AcceptableTarget(target: Text)
  {
    && target != [SLASH]
    && target != [] && target[0] == SLASH
    && [DOT, DOT] !in Split(target)
    && !(CACHE_ROOT <= TargetPlace(target))
    && !(OVERLAY_ROOT <= TargetPlace(target))
  }

  function ReadyFor(action: Action, id: Text): (r: Response)
  {
    Ready(action, id, None, None, None)
  }

  // ----- Rolling back -----

  /** Takes down the first n overlays, the latest first; stops at the first call that fails. */
  function RollbackOverlays(s: System, overlays: seq<Overlay>, n: nat, os: Script, at: nat): (r: (System, bool))
    requires n <= |overlays|
    decreases n
  {
    if n == 0 then (s, true)
    else
      var o := overlays[n - 1];
      var (k1, target) := Unmount(s.kernel, TargetPlace(o.target), os(at));
      if !target then (s.(kernel := k1), false)
      else
        var (k2, staging) := Unmount(k1, StagingDir(o.binding), os(at + 1));
        if !staging then (s.(kernel := k2), false)
        else
          var released := s.manager.(bindings := s.manager.bindings - {o.binding}, targets := s.manager.targets - {o.target});
          RollbackOverlays(System(k2, released), overlays, n - 1, os, at + 2)
  }

  function RollbackImage(s: System, id: Text, os: Script, at: nat): (r: (System, bool))
  {
    if id !in s.manager.images then (s, true)
    else
      var image := s.manager.images[id];
      var forgotten := s.(manager := s.manager.(images := s.manager.images - {id}));
      var (s1, ok) := RollbackOverlays(forgotten, image.overlays, |image.overlays|, os, at + 2);
      if !ok then (s1, false)
      else
        var (k2, unmounted) := Unmount(s1.kernel, MountDir(id), os(at));
        if !unmounted then (s1.(kernel := k2), false)
        else
          var (k3, removed) := Attempt(k2, os(at + 1));
          (s1.(kernel := k3), removed)
  }

  /** Rolls the image back and rejects the request, unless the rollback itself fails. */
  function Reject(s: System, id: Text, action: Action, reason: Reason, os: Script, at: nat): (r: (System, Reply))
  {
    var (s1, ok) := RollbackImage(s, id, os, at);
    (s1, if ok then Answer(Rejected(action, id, reason)) else Failed(RollbackFailed))
  }

  // ----- Preparing -----

  function BeginBuild(s: System, id: Text, serial: Text, size: u64, key: Text, os: Script): (r: (System, Reply))
  {
    if id in s.manager.images then (s, Failed(AlreadyPrepared))
    else
      var k0 := Drift(s.kernel, os(0));
      match Discover(k0, serial, size, false, os(0))
      case NoDevice(reason) => (s.(kernel := k0), Answer(Rejected(PreparesBuild, id, reason)))
      case Found(d) =>
        if !os(1).ok then (s.(kernel := k0), Answer(Rejected(PreparesBuild, id, FormatterUnavailable)))
        else
          var (k1, formatted) := Format(k0, d, os(2));
          if !formatted then (s.(kernel := k1), Answer(Rejected(PreparesBuild, id, FormatterFailed)))
          else
            var (k2, empty) := EmptyDirectory(k1, MountDir(id), os(3));
            if !empty then (s.(kernel := k2), Failed(SystemError))
            else FinishBuild(s.(kernel := k2), id, d, size, key, os)
  }

  /** Mounts the formatted device and creates its source directory. */
  function FinishBuild(s: System, id: Text, d: Device, size: u64, key: Text, os: Script): (r: (System, Reply))
  {
    var (k3, mounted) := MountDisk(s.kernel, d, MountDir(id), false, os(4));
    if !mounted then (s.(kernel := k3), Answer(Rejected(PreparesBuild, id, MountFailed)))
    else
      var (k4, private) := Attempt(k3, os(5));
      if !private then (s.(kernel := Unmount(k4, MountDir(id), os(6)).0), Failed(SystemError))
      else
        var (k5, created) := CreateSource(k4, MountDir(id), os(7));
        if !created then (s.(kernel := Unmount(k5, MountDir(id), os(8)).0), Failed(SystemError))
        else
          var image := Image(d, size, key, Building, []);
          (System(k5, s.manager.(images := s.manager.images[id := image])), Answer(ReadyFor(PreparesBuild, id)))
  }

  /** `rollback_untracked_mount`, then the rejection. */
  function RejectHit(s: System, id: Text, reason: Reason, os: Script, at: nat): (r: (System, Reply))
  {
    var (k1, unmounted) := Unmount(s.kernel, MountDir(id), os(at));
    if !unmounted then (s.(kernel := k1), Failed(LeftMounted))
    else
      var (k2, removed) := Attempt(k1, os(at + 1));
      (s.(kernel := k2), if removed then Answer(Rejected(PreparesHit, id, reason)) else Failed(LeftMounted))
  }

  function OpenHit(env: Env, s: System, id: Text, serial: Text, size: u64, key: Text, os: Script): (r: (System, Reply))
  {
    if id in s.manager.images then (s, Failed(AlreadyPrepared))
    else
      var k0 := Drift(s.kernel, os(0));
      match Discover(k0, serial, size, true, os(0))
      case NoDevice(reason) => (s.(kernel := k0), Answer(Rejected(PreparesHit, id, reason)))
      case Found(d) =>
        var (k1, empty) := EmptyDirectory(k0, MountDir(id), os(1));
        if !empty then (s.(kernel := k1), Failed(SystemError))
        else
          var (k2, mounted) := MountDisk(k1, d, MountDir(id), true, os(2));
          if !mounted then (s.(kernel := k2), Answer(Rejected(PreparesHit, id, MountFailed)))
          else
            var (k3, private) := Attempt(k2, os(3));
            if !private then (s.(kernel := Unmount(k3, MountDir(id), os(4)).0), Failed(SystemError))
            else CheckHit(env, s.(kernel := k3), id, d, size, key, os)
  }

  /** Accepts the mounted image if its sentinel and the key of its tree are the expected key. */
  function CheckHit(env: Env, s: System, id: Text, d: Device, size: u64, key: Text, os: Script): (r: (System, Reply))
  {
    var (k4, sentinel) := ReadSentinel(s.kernel, MountDir(id), os(5));
    if sentinel.None? then RejectHit(s.(kernel := k4), id, InvalidSourceTree, os, 10)
    else if sentinel.value != key then RejectHit(s.(kernel := k4), id, SourceKeyMismatch, os, 10)
    else
      var (k5, computed) := HashSource(env.hash, env.lists, k4, MountDir(id), os(6));
      if computed.None? then RejectHit(s.(kernel := k5), id, InvalidSourceTree, os, 10)
      else if computed.value != key then RejectHit(s.(kernel := k5), id, SourceKeyMismatch, os, 10)
      else
        var image := Image(d, size, key, Validated, []);
        (System(k5, s.manager.(images := s.manager.images[id := image])),
         Answer(Ready(PreparesHit, id, None, computed, None)))
  }

  // ----- Importing -----

  function TakeBatch(s: System, id: Text, entries: seq<ImportEntry>, dataLen: u32, data: seq<byte>, os: Script)
    : (r: (System, Reply))
  {
    if |data| != dataLen then (s, Failed(LengthChanged))
    else if id !in s.manager.images then (s, Failed(NotPrepared))
    else if s.manager.images[id].phase != Building then (s, Failed(NotBuilding))
    else
      var (k1, ok) := ImportInto(s.kernel, MountDir(id), entries, data, os(0));
      if !ok then Reject(s.(kernel := k1), id, ImportsBatch, MountFailed, os, 1)
      else (s.(kernel := k1), Answer(ReadyFor(ImportsBatch, id)))
  }

  // ----- Sealing -----

  function Seal(env: Env, s: System, id: Text, key: Text, os: Script): (r: (System, Reply))
  {
    if id !in s.manager.images then (s, Failed(NotPrepared))
    else if s.manager.images[id].phase != Building then (s, Failed(NotBuilding))
    else if s.manager.images[id].key != key then (s, Failed(KeyChanged))
    else
      var (k1, computed) := HashSource(env.hash, env.lists, s.kernel, MountDir(id), os(0));
      if computed.None? then Reject(s.(kernel := k1), id, SealsBuild, InvalidSourceTree, os, 20)
      else if computed.value != key then Reject(s.(kernel := k1), id, SealsBuild, SourceKeyMismatch, os, 20)
      else
        var (k2, wrote) := WriteSentinel(k1, MountDir(id), key, os(1));
        if !wrote then (s.(kernel := k2), Failed(SystemError))
        else
          var (k3, synced) := Attempt(k2, os(2));
          if !synced then (s.(kernel := k3), Failed(SystemError))
          else
            var (k4, unmounted) := Unmount(k3, MountDir(id), os(3));
            if !unmounted then (s.(kernel := k4), Failed(SystemError))
            else FinishSeal(env, s.(kernel := k4), id, key, os)
  }

  /** Freezes the device, mounts it read-only, and hashes the tree again. */
  function FinishSeal(env: Env, s: System, id: Text, key: Text, os: Script): (r: (System, Reply))
    requires id in s.manager.images
  {
    var image := s.manager.images[id];
    var (k5, frozen) := SetReadOnly(s.kernel, image.device, os(4));
    if !frozen then (s.(kernel := k5), Failed(SystemError))
    else
      var (k6, digest) := HashRaw(env.hash, k5, image.device, image.size, os(5));
      if digest.None? then (s.(kernel := k6), Failed(SystemError))
      else
        var (k7, mounted) := MountDisk(k6, image.device, MountDir(id), true, os(6));
        if !mounted then (s.(kernel := k7), Failed(SystemError))
        else
          var (k8, private) := Attempt(k7, os(7));
          if !private then (s.(kernel := k8), Failed(SystemError))
          else
            var (k9, remounted) := HashSource(env.hash, env.lists, k8, MountDir(id), os(8));
            if remounted.None? then (s.(kernel := k9), Failed(SystemError))
            else if remounted.value != key then Reject(s.(kernel := k9), id, SealsBuild, SourceKeyMismatch, os, 20)
            else
              (System(k9, s.manager.(images := s.manager.images[id := image.(phase := Validated)])),
               Answer(Ready(SealsBuild, id, None, Some(key), digest)))
  }

  // ----- Overlays -----

  /** `mount_cache_overlay`; a failure to create upper or work directories leaves the staging mount behind. */
  function MountCacheOverlay(k: Kernel, id: Text, key: Text, binding: Text, target: Text, os: Script): (r: (Kernel, bool))
  {
    var staging := StagingDir(binding);
    var (k1, root) := Attempt(k, os(0));
    if !root then (k1, false)
    else
      var (k2, empty) := EmptyDirectory(k1, staging, os(1));
      if !empty then (k2, false)
      else
        var (k3, made) := Attempt(k2, os(2));
        if !made then (k3, false)
        else
          var (k4, mounted) := MountPlain(k3, staging, os(3));
          if !mounted then (k4, false)
          else
            var (k5, private) := Attempt(k4, os(4));
            if !private then (Unmount(k5, staging, os(5)).0, false)
            else
              var (k6, dirs) := Attempt(k5, os(6));
              if !dirs then (k6, false)
              else
                var (k7, on) := MountOverlayOn(k6, MountDir(id), TargetPlace(target), id, key, os(7));
                if !on then (Unmount(k7, staging, os(8)).0, false) else (k7, true)
  }

  function BindOverlay(s: System, id: Text, binding: Text, target: Text, os: Script): (r: (System, Reply))
  {
    if id !in s.manager.images then (s, Failed(NotPrepared))
    else if s.manager.images[id].phase != Validated then (s, Failed(NotValidated))
    else if binding in s.manager.bindings || target in s.manager.targets then (s, Failed(AlreadyUsed))
    else if !AcceptableTarget(target) then (s, Failed(BadTarget))
    else
      var image := s.manager.images[id];
      var (k1, ok) := MountCacheOverlay(s.kernel, id, image.key, binding, target, os);
      if !ok then Reject(s.(kernel := k1), id, MountsOverlay, MountFailed, os, 20)
      else
        var added := image.(overlays := image.overlays + [Overlay(binding, target)]);
        (System(k1, Manager(s.manager.images[id := added], s.manager.bindings + {binding}, s.manager.targets + {target})),
         Answer(Ready(MountsOverlay, id, Some(binding), None, None)))
  }

  function Abort(s: System, id: Text, os: Script): (r: (System, Reply))
  {
    var (s1, ok) := RollbackImage(s, id, os, 0);
    (s1, if ok then Answer(ReadyFor(AbortsBuild, id)) else Failed(RollbackFailed))
  }

  // ----- Requests -----

  /** Validates and serves one request; `data` is the data frame that follows an import batch. */
  function Handle(env: Env, s: System, request: Request, data: seq<byte>, os: Script): (r: (System, Reply))
  {
    if !Valid(request) then (s, Failed(InvalidRequest))
    else
      match request
      case PrepareBuild(id, serial, size, key, _) => BeginBuild(s, id, serial, size, key, os)
      case PrepareHit(id, serial, size, key) => OpenHit(env, s, id, serial, size, key, os)
      case ImportBatch(id, entries, dataLen) => TakeBatch(s, id, entries, dataLen, data, os)
      case SealBuild(id, key) => Seal(env, s, id, key, os)
      case AbortBuild(id) => Abort(s, id, os)
      case MountOverlay(id, binding, target) => BindOverlay(s, id, binding, target, os)
  }
}
