/** The manager as an object that updates its registry and the kernel in place. */
module CacheService {
  import opened Bytes
  import opened Paths
  import opened TreeHash
  import opened CacheProtocol
  import opened CacheKernel
  import opened CacheManager

  class MountCacheManager {
    var images: map<Text, Image>
    var bindings: set<Text>
    var targets: set<Text>
    var kernel: Kernel

    function Value(): (s: System)
      reads this
    {
      System(kernel, Manager(images, bindings, targets))
    }

    constructor (k: Kernel)
      ensures Value() == System(k, Manager(map[], {}, {}))
    {
      images, bindings, targets, kernel := map[], {}, {}, k;
    }

    method RollbackUntrackedMount(id: Text, reason: Reason, os: Script, at: nat) returns (reply: Reply)
      modifies this
      ensures (Value(), reply) == RejectHit(old(Value()), id, reason, os, at)
    {
      hide Unmount, Drift, MountDir;
      var unmounted := UnmountAt(MountDir(id), os(at));
      if !unmounted {
        return Failed(LeftMounted);
      }
      var removed := Try(os(at + 1));
      if !removed {
        return Failed(LeftMounted);
      }
      return Answer(Rejected(PreparesHit, id, reason));
    }

    method UnmountAt(p: Location, c: Choice) returns (ok: bool)
      modifies this`kernel
      ensures (kernel, ok) == Unmount(old(kernel), p, c)
    {
      var r := Unmount(kernel, p, c);
      kernel, ok := r.0, r.1;
    }

    method Try(c: Choice) returns (ok: bool)
      modifies this`kernel
      ensures (kernel, ok) == Attempt(old(kernel), c)
    {
      var r := Attempt(kernel, c);
      kernel, ok := r.0, r.1;
    }

    /** Takes the image out of the registry, then its overlays down from the last to the first, then its mount. */
    method RollbackImage(id: Text, os: Script, at: nat) returns (ok: bool)
      modifies this
      ensures (Value(), ok) == CacheManager.RollbackImage(old(Value()), id, os, at)
    {
      hide Unmount, Drift, MountDir, TargetPlace, StagingDir;
      if id !in images {
        return true;
      }
      var image := images[id];
      images := images - {id};
      ghost var forgotten := Value();
      var n: nat, step: nat := |image.overlays|, at + 2;
      while n > 0
        invariant n <= |image.overlays|
        invariant RollbackOverlays(Value(), image.overlays, n, os, step)
               == RollbackOverlays(forgotten, image.overlays, |image.overlays|, os, at + 2)
      {
        var o := image.overlays[n - 1];
        var target := UnmountAt(TargetPlace(o.target), os(step));
        if !target {
          return false;
        }
        var staging := UnmountAt(StagingDir(o.binding), os(step + 1));
        if !staging {
          return false;
        }
        bindings := bindings - {o.binding};
        targets := targets - {o.target};
        n, step := n - 1, step + 2;
      }
      var unmounted := UnmountAt(MountDir(id), os(at));
      if !unmounted {
        return false;
      }
      ok := Try(os(at + 1));
    }

    method RejectAfterRollback(id: Text, action: Action, reason: Reason, os: Script, at: nat) returns (reply: Reply)
      modifies this
      ensures (Value(), reply) == Reject(old(Value()), id, action, reason, os, at)
    {
      hide CacheManager.RollbackImage;
      var ok := RollbackImage(id, os, at);
      reply := if ok then Answer(Rejected(action, id, reason)) else Failed(RollbackFailed);
    }

    method PrepareBuild(id: Text, serial: Text, size: u64, key: Text, os: Script) returns (reply: Reply)
      modifies this
      ensures (Value(), reply) == BeginBuild(old(Value()), id, serial, size, key, os)
    {
      hide Drift, Discover, Format, EmptyDirectory, MountDisk, CreateSource, Unmount, MountDir;
      if id in images {
        return Failed(AlreadyPrepared);
      }
      kernel := Drift(kernel, os(0));
      var found := Discover(kernel, serial, size, false, os(0));
      if found.NoDevice? {
        return Answer(Rejected(PreparesBuild, id, found.reason));
      }
      if !os(1).ok {
        return Answer(Rejected(PreparesBuild, id, FormatterUnavailable));
      }
      var formatted := Format(kernel, found.device, os(2));
      kernel := formatted.0;
      if !formatted.1 {
        return Answer(Rejected(PreparesBuild, id, FormatterFailed));
      }
      var dir := MountDir(id);
      var empty := EmptyDirectory(kernel, dir, os(3));
      kernel := empty.0;
      if !empty.1 {
        return Failed(SystemError);
      }
      var mounted := MountDisk(kernel, found.device, dir, false, os(4));
      kernel := mounted.0;
      if !mounted.1 {
        return Answer(Rejected(PreparesBuild, id, MountFailed));
      }
      var private := Try(os(5));
      if !private {
        kernel := Unmount(kernel, dir, os(6)).0;
        return Failed(SystemError);
      }
      var created := CreateSource(kernel, dir, os(7));
      kernel := created.0;
      if !created.1 {
        kernel := Unmount(kernel, dir, os(8)).0;
        return Failed(SystemError);
      }
      images := images[id := Image(found.device, size, key, Building, [])];
      return Answer(ReadyFor(PreparesBuild, id));
    }

    method PrepareHit(env: Env, id: Text, serial: Text, size: u64, key: Text, os: Script) returns (reply: Reply)
      modifies this
      ensures (Value(), reply) == OpenHit(env, old(Value()), id, serial, size, key, os)
    {
      hide Drift, Discover, EmptyDirectory, MountDisk, ReadSentinel, HashSource, RejectHit, Unmount, MountDir;
      if id in images {
        return Failed(AlreadyPrepared);
      }
      kernel := Drift(kernel, os(0));
      var found := Discover(kernel, serial, size, true, os(0));
      if found.NoDevice? {
        return Answer(Rejected(PreparesHit, id, found.reason));
      }
      var dir := MountDir(id);
      var empty := EmptyDirectory(kernel, dir, os(1));
      kernel := empty.0;
      if !empty.1 {
        return Failed(SystemError);
      }
      var mounted := MountDisk(kernel, found.device, dir, true, os(2));
      kernel := mounted.0;
      if !mounted.1 {
        return Answer(Rejected(PreparesHit, id, MountFailed));
      }
      var private := Try(os(3));
      if !private {
        kernel := Unmount(kernel, dir, os(4)).0;
        return Failed(SystemError);
      }
      var sentinel := ReadSentinel(kernel, dir, os(5));
      kernel := sentinel.0;
      if sentinel.1 != Some(key) {
        var reason := if sentinel.1.None? then InvalidSourceTree else SourceKeyMismatch;
        reply := RollbackUntrackedMount(id, reason, os, 10);
        return;
      }
      var computed := HashSource(env.hash, env.lists, kernel, dir, os(6));
      kernel := computed.0;
      if computed.1 != Some(key) {
        var reason := if computed.1.None? then InvalidSourceTree else SourceKeyMismatch;
        reply := RollbackUntrackedMount(id, reason, os, 10);
        return;
      }
      images := images[id := Image(found.device, size, key, Validated, [])];
      return Answer(Ready(PreparesHit, id, None, computed.1, None));
    }

    method ImportBatch(id: Text, entries: seq<ImportEntry>, dataLen: u32, data: seq<byte>, os: Script) returns (reply: Reply)
      modifies this
      ensures (Value(), reply) == TakeBatch(old(Value()), id, entries, dataLen, data, os)
    {
      hide ImportInto, Reject, MountDir;
      if |data| != dataLen {
        return Failed(LengthChanged);
      }
      if id !in images {
        return Failed(NotPrepared);
      }
      if images[id].phase != Building {
        return Failed(NotBuilding);
      }
      var imported := ImportInto(kernel, MountDir(id), entries, data, os(0));
      kernel := imported.0;
      if !imported.1 {
        reply := RejectAfterRollback(id, ImportsBatch, MountFailed, os, 1);
        return;
      }
      return Answer(ReadyFor(ImportsBatch, id));
    }

    method SealBuild(env: Env, id: Text, key: Text, os: Script) returns (reply: Reply)
      modifies this
      ensures (Value(), reply) == Seal(env, old(Value()), id, key, os)
    {
      hide HashSource, WriteSentinel, SetReadOnly, MountDisk, Drift, Unmount, Reject, MountDir, Hex;
      if id !in images {
        return Failed(NotPrepared);
      }
      if images[id].phase != Building {
        return Failed(NotBuilding);
      }
      if images[id].key != key {
        return Failed(KeyChanged);
      }
      var dir, device := MountDir(id), images[id].device;
      var computed := HashSource(env.hash, env.lists, kernel, dir, os(0));
      kernel := computed.0;
      if computed.1 != Some(key) {
        var reason := if computed.1.None? then InvalidSourceTree else SourceKeyMismatch;
        reply := RejectAfterRollback(id, SealsBuild, reason, os, 20);
        return;
      }
      var wrote := WriteSentinel(kernel, dir, key, os(1));
      kernel := wrote.0;
      if !wrote.1 {
        return Failed(SystemError);
      }
      var synced := Try(os(2));
      if !synced {
        return Failed(SystemError);
      }
      var unmounted := UnmountAt(dir, os(3));
      if !unmounted {
        return Failed(SystemError);
      }
      reply := Remount(env, id, key, os);
    }

    method HashRawDevice(env: Env, device: Device, size: u64, c: Choice) returns (digest: Option<Text>)
      modifies this`kernel
      ensures (kernel, digest) == HashRaw(env.hash, old(kernel), device, size, c)
    {
      hide Drift, Hex;
      kernel := Drift(kernel, c);
      if !c.ok || device !in kernel.devices {
        return None;
      }
      var raw, fed, remaining := RawBytes(kernel.devices[device].content, size), [], size;
      while remaining != 0
        invariant 0 <= remaining <= size && fed == raw[..size - remaining]
      {
        var wanted, at := Least(remaining, HASH_BUFFER_SIZE), size - remaining;
        fed := fed + raw[at..at + wanted];
        remaining := remaining - wanted;
      }
      assert fed == raw;
      return Some(Hex(env.hash(fed)));
    }

    method Remount(env: Env, id: Text, key: Text, os: Script) returns (reply: Reply)
      requires id in images
      modifies this
      ensures (Value(), reply) == FinishSeal(env, old(Value()), id, key, os)
    {
      hide HashSource, SetReadOnly, MountDisk, Drift, Reject, MountDir, Hex;
      var dir, image := MountDir(id), images[id];
      var frozen := SetReadOnly(kernel, image.device, os(4));
      kernel := frozen.0;
      if !frozen.1 {
        return Failed(SystemError);
      }
      var digest := HashRawDevice(env, image.device, image.size, os(5));
      if digest.None? {
        return Failed(SystemError);
      }
      var mounted := MountDisk(kernel, image.device, dir, true, os(6));
      kernel := mounted.0;
      if !mounted.1 {
        return Failed(SystemError);
      }
      var private := Try(os(7));
      if !private {
        return Failed(SystemError);
      }
      var remounted := HashSource(env.hash, env.lists, kernel, dir, os(8));
      kernel := remounted.0;
      if remounted.1.None? {
        return Failed(SystemError);
      }
      if remounted.1.value != key {
        reply := RejectAfterRollback(id, SealsBuild, SourceKeyMismatch, os, 20);
        return;
      }
      images := images[id := image.(phase := Validated)];
      return Answer(Ready(SealsBuild, id, None, Some(key), digest));
    }

    method MountOverlay(id: Text, binding: Text, target: Text, os: Script) returns (reply: Reply)
      modifies this
      ensures (Value(), reply) == BindOverlay(old(Value()), id, binding, target, os)
    {
      hide MountCacheOverlay, Reject, AcceptableTarget;
      if id !in images {
        return Failed(NotPrepared);
      }
      if images[id].phase != Validated {
        return Failed(NotValidated);
      }
      if binding in bindings || target in targets {
        return Failed(AlreadyUsed);
      }
      if !AcceptableTarget(target) {
        return Failed(BadTarget);
      }
      var image := images[id];
      var mounted := MountCacheOverlay(kernel, id, image.key, binding, target, os);
      kernel := mounted.0;
      if !mounted.1 {
        reply := RejectAfterRollback(id, MountsOverlay, MountFailed, os, 20);
        return;
      }
      bindings := bindings + {binding};
      targets := targets + {target};
      images := images[id := image.(overlays := image.overlays + [Overlay(binding, target)])];
      return Answer(Ready(MountsOverlay, id, Some(binding), None, None));
    }

    method Handle(env: Env, request: Request, data: seq<byte>, os: Script) returns (reply: Reply)
      modifies this
      ensures (Value(), reply) == CacheManager.Handle(env, old(Value()), request, data, os)
    {
      hide Valid, BeginBuild, OpenHit, TakeBatch, Seal, BindOverlay, CacheManager.RollbackImage;
      if !Valid(request) {
        return Failed(InvalidRequest);
      }
      match request
      case PrepareBuild(id, serial, size, key, _) => reply := PrepareBuild(id, serial, size, key, os);
      case PrepareHit(id, serial, size, key) => reply := PrepareHit(env, id, serial, size, key, os);
      case ImportBatch(id, entries, dataLen) => reply := ImportBatch(id, entries, dataLen, data, os);
      case SealBuild(id, key) => reply := SealBuild(env, id, key, os);
      case AbortBuild(id) =>
        var ok := RollbackImage(id, os, 0);
        reply := if ok then Answer(ReadyFor(AbortsBuild, id)) else Failed(RollbackFailed);
      case MountOverlay(id, binding, target) => reply := MountOverlay(id, binding, target, os);
    }
  }
}
