/** The digest a seal answers with: that of the raw device the image is served from, then and for as long as it is tracked. */
module CacheDigest {
  import opened Bytes
  import opened Paths
  import opened TreeHash
  import opened CacheProtocol
  import opened CacheKernel
  import opened CacheManager
  import opened CacheInvariant
  import opened CacheRegistry
  import opened CacheRuns

  /** What `hash_raw_device` would answer for a device as it is. */
  function DeviceDigest(env: Env, k: Kernel, d: Device, size: u64): (t: Text)
    requires d in k.devices
  {
    Hex(env.hash(RawBytes(k.devices[d].content, size)))
  }

  /** A locked device is not changed by anyone else. */
  lemma DriftLeavesLocked(k: Kernel, c: Choice, d: Device)
    requires d in k.devices && k.devices[d].locked
    ensures d in Drift(k, c).devices && Drift(k, c).devices[d] == k.devices[d]
  {
  }

  lemma RejectIsNotReady(s: System, id: Text, action: Action, reason: Reason, os: Script, at: nat)
    ensures var reply := Reject(s, id, action, reason, os, at).1; !(reply.Answer? && reply.response.Ready?)
  {
    hide RollbackImage;
  }

  /** From the moment the device is locked, the rest of a seal leaves it as it is. */
  lemma FinishSealDigest(env: Env, s: System, id: Text, key: Text, os: Script)
    requires id in s.manager.images
    requires var reply := FinishSeal(env, s, id, key, os).1; reply.Answer? && reply.response.Ready?
    ensures var (r, reply) := FinishSeal(env, s, id, key, os);
            var image := s.manager.images[id];
            && image.device in r.kernel.devices && r.kernel.devices[image.device].readOnly
            && r.kernel.mounts == s.kernel.mounts + [FrozenMount(id, image.device)]
            && r.manager.images == s.manager.images[id := image.(phase := Validated)]
            && reply.response.key == Some(key)
            && reply.response.digest == Some(DeviceDigest(env, r.kernel, image.device, image.size))
  {
    hide Drift, RawBytes, Hex, Reject, HashSource, MountDir;
    var d, dir := s.manager.images[id].device, MountDir(id);
    var k5 := SetReadOnly(s.kernel, d, os(4)).0;
    DriftLeavesLocked(k5, os(5), d);
    var k6 := Drift(k5, os(5));
    DriftLeavesLocked(k6, os(6), d);
    var k7 := MountDisk(k6, d, dir, true, os(6)).0;
    DriftLeavesLocked(k7, os(7), d);
    var k8 := Drift(k7, os(7));
    DriftLeavesLocked(k8, os(8), d);
    HashSourceDrifts(env, k8, dir, os(8));
    RejectIsNotReady(s.(kernel := Drift(k8, os(8))), id, SealsBuild, SourceKeyMismatch, os, 20);
  }

  lemma HashSourceDrifts(env: Env, k: Kernel, dir: Location, c: Choice)
    ensures HashSource(env.hash, env.lists, k, dir, c).0 == Drift(k, c)
  {
  }

  /** The image that a Ready answer to a seal is about. */
  ghost predicate Sealed(env: Env, s: System, id: Text, reply: Reply)
  {
    && reply.Answer? && reply.response.Ready?
    && id in s.manager.images
    && var image := s.manager.images[id];
       && image.phase == Validated
       && FrozenMount(id, image.device) in s.kernel.mounts
       && image.device in s.kernel.devices && s.kernel.devices[image.device].readOnly
       && reply.response.key == Some(image.key) && HasKey(env, s.kernel, image.device, image.key)
       && reply.response.digest == Some(DeviceDigest(env, s.kernel, image.device, image.size))
  }

  /** Whatever the system does, a seal answered Ready names the key and the digest of the device it leaves mounted read-only. */
  lemma SealAnswersTheDigest(env: Env, s: System, ask: Ask)
    requires Inv(env, s) && ask.request.SealBuild?
    requires var reply := Serve(env, s, ask).1; reply.Answer? && reply.response.Ready?
    ensures Sealed(env, Serve(env, s, ask).0, ask.request.image, Serve(env, s, ask).1)
  {
    hide Inv, HasKey, FinishSeal, HashSource, WriteSentinel, Unmount, Reject, MountDir, Valid, Drift, Hex, RawBytes;
    var (r, reply) := Serve(env, s, ask);
    var id, key, os := ask.request.image, ask.request.key, ask.os;
    HandleKeepsInv(env, s, ask.request, ask.data, os);
    var k1 := HashSource(env.hash, env.lists, s.kernel, MountDir(id), os(0)).0;
    var k2 := WriteSentinel(k1, MountDir(id), key, os(1)).0;
    var k4 := Unmount(Drift(k2, os(2)), MountDir(id), os(3)).0;
    RejectIsNotReady(s.(kernel := k1), id, SealsBuild, InvalidSourceTree, os, 20);
    RejectIsNotReady(s.(kernel := k1), id, SealsBuild, SourceKeyMismatch, os, 20);
    FinishSealDigest(env, s.(kernel := k4), id, key, os);
    TrackedIsOk(env, r, id);
  }

  // ----- As long as the image is tracked -----

  /** Requests about a validated image that leave it tracked only add mounts. */
  lemma SameImageKeeps(env: Env, s: System, ask: Ask)
    requires Inv(env, s) && ask.request.image in s.manager.images && s.manager.images[ask.request.image].phase == Validated
    requires ask.request.image in Serve(env, s, ask).0.manager.images
    ensures Keeps(s.kernel, Serve(env, s, ask).0.kernel, {})
  {
    hide Inv, Keeps, Valid, MountCacheOverlay, RollbackOverlays, AcceptableTarget, Drift, MountDir, Released, AllReleased;
    var id, os := ask.request.image, ask.os;
    Begin(env, s, id);
    if ask.request.MountOverlay? {
      var key, binding, target := s.manager.images[id].key, ask.request.binding, ask.request.target;
      MountCacheOverlayOn(s.kernel, s.kernel, id, key, binding, target, os);
      var ch := RollbackChanges(s.(kernel := MountCacheOverlay(s.kernel, id, key, binding, target, os).0), id, os, 20);
    } else if ask.request.AbortBuild? {
      var ch := RollbackChanges(s, id, os, 0);
    }
  }

  /** The device of a validated image keeps its content for as long as the image is tracked. */
  lemma DeviceStays(env: Env, s: System, ask: Ask, id: Text)
    requires Inv(env, s) && id in s.manager.images && s.manager.images[id].phase == Validated
    requires id in Serve(env, s, ask).0.manager.images
    ensures var d, l := s.manager.images[id].device, Serve(env, s, ask).0.kernel;
            d in s.kernel.devices && d in l.devices && l.devices[d].content == s.kernel.devices[d].content
  {
    hide Inv, Handle, FrozenMount, Coherent, TreeKey;
    TrackedIsOk(env, s, id);
    if ask.request.image == id {
      SameImageKeeps(env, s, ask);
    } else {
      HandleKeepsInv(env, s, ask.request, ask.data, ask.os);
    }
  }

  lemma {:induction false} DigestStays(env: Env, s: System, asks: seq<Ask>, id: Text)
    requires Inv(env, s) && id in s.manager.images && s.manager.images[id].phase == Validated
    requires forall n :: 0 <= n <= |asks| ==> id in Run(env, s, asks[..n]).manager.images
    ensures var d, r := s.manager.images[id].device, Run(env, s, asks);
            && d in s.kernel.devices && d in r.kernel.devices && r.kernel.devices[d].content == s.kernel.devices[d].content
            && id in r.manager.images && Continues(s.manager.images[id], r.manager.images[id])
    decreases |asks|
  {
    hide Inv, Serve, Continues, HasKey, FrozenMount;
    ValidatedUntilForgotten(env, s, asks, id);
    if asks == [] {
      HasItsDevice(env, s, id);
    } else {
      var before := asks[..|asks| - 1];
      forall n | 0 <= n <= |before|
        ensures id in Run(env, s, before[..n]).manager.images
      {
        assert before[..n] == asks[..n];
      }
      DigestStays(env, s, before, id);
      RunKeepsInv(env, s, before);
      var mid := Run(env, s, before);
      assert asks[..|asks|] == asks;
      Continued(s.manager.images[id], mid.manager.images[id]);
      DeviceStays(env, mid, asks[|asks| - 1], id);
    }
  }

  lemma Continued(a: Image, b: Image)
    requires Continues(a, b)
    ensures b.phase == Validated && b.device == a.device && b.size == a.size && b.key == a.key
  {
  }

  lemma HasItsDevice(env: Env, s: System, id: Text)
    requires Inv(env, s) && id in s.manager.images && s.manager.images[id].phase == Validated
    ensures s.manager.images[id].device in s.kernel.devices
  {
    hide TreeKey, Coherent;
    TrackedIsOk(env, s, id);
  }

  /**
   In every run from an empty registry, whatever the system calls do: the key and the digest of a seal answered Ready are
   those of the image's device when the answer is given, and still are after any further requests, as long as the image
   is tracked.
   */
  lemma SealedDigestHolds(env: Env, k: Kernel, before: seq<Ask>, ask: Ask, after: seq<Ask>)
    requires Coherent(k.mounts) && ask.request.SealBuild?
    requires var reply := Serve(env, Run(env, System(k, NO_IMAGES), before), ask).1; reply.Answer? && reply.response.Ready?
    requires var sealed := Serve(env, Run(env, System(k, NO_IMAGES), before), ask).0;
             forall n :: 0 <= n <= |after| ==> ask.request.image in Run(env, sealed, after[..n]).manager.images
    ensures var (sealed, reply) := Serve(env, Run(env, System(k, NO_IMAGES), before), ask);
            var r, id := Run(env, sealed, after), ask.request.image;
            && Sealed(env, sealed, id, reply)
            && id in r.manager.images && r.manager.images[id].phase == Validated
            && var image := r.manager.images[id];
               && image.device in r.kernel.devices
               && reply.response.key == Some(image.key)
               && reply.response.digest == Some(DeviceDigest(env, r.kernel, image.device, image.size))
  {
    hide Run, Handle, Inv, Continues, HasKey, FrozenMount, RawBytes, Hex;
    assert Inv(env, System(k, NO_IMAGES)) by { EmptyIsFine(env, k); }
    RunKeepsInv(env, System(k, NO_IMAGES), before);
    var s := Run(env, System(k, NO_IMAGES), before);
    SealAnswersTheDigest(env, s, ask);
    HandleKeepsInv(env, s, ask.request, ask.data, ask.os);
    var sealed := Serve(env, s, ask).0;
    DigestStays(env, sealed, after, ask.request.image);
    Continued(sealed.manager.images[ask.request.image], Run(env, sealed, after).manager.images[ask.request.image]);
  }

  lemma EmptyIsFine(env: Env, k: Kernel)
    requires Coherent(k.mounts)
    ensures Inv(env, System(k, NO_IMAGES))
  {
  }
}
