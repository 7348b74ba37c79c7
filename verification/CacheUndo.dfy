/** What an accepted hit has established, and that aborting an image undoes everything done for it. */
module CacheUndo {
  import opened Bytes
  import opened SourceTree
  import opened TreeHash
  import opened CacheProtocol
  import opened CacheKernel
  import opened CacheManager
  import opened CacheInvariant
  import opened CachePipeline

  // ----- An accepted hit -----

  lemma DriftKeepsFacts(k: Kernel, c: Choice, d: Device)
    requires d in k.devices
    ensures var e := Drift(k, c).devices[d];
            && e.serial == k.devices[d].serial && e.size == k.devices[d].size && e.readOnly == k.devices[d].readOnly
            && (Frozen(k.mounts, d) ==> e == k.devices[d])
  {
  }

  /**
   A hit answered with Ready, whatever the system calls did: the image is validated on a read-only device with the
   requested serial and size, mounted read-only, whose sentinel names the expected key and whose tree has it.
   */
  lemma AcceptedHit(env: Env, s: System, id: Text, serial: Text, size: u64, key: Text, os: Script)
    requires var reply := OpenHit(env, s, id, serial, size, key, os).1; reply.Answer? && reply.response.Ready?
    ensures var r := OpenHit(env, s, id, serial, size, key, os).0;
            && id in r.manager.images
            && var image := r.manager.images[id];
               && image == Image(image.device, size, key, Validated, [])
               && FrozenMount(id, image.device) in r.kernel.mounts
               && image.device in r.kernel.devices
               && var d := r.kernel.devices[image.device];
                  && d.serial == serial && d.size == size && d.readOnly
                  && d.content.sentinel.Some? && ParseSentinel(d.content.sentinel.value) == Some(key)
                  && HasKey(env, r.kernel, image.device, key)
  {
    hide MountDir, TreeKey, ParseSentinel, Volume, RejectHit, Unmount, Frozen, Drift, CheckHit;
    var k0 := Drift(s.kernel, os(0));
    var d := Discover(k0, serial, size, true, os(0)).device;
    var k1 := EmptyDirectory(k0, MountDir(id), os(1)).0;
    var k2 := MountDisk(k1, d, MountDir(id), true, os(2)).0;
    var k3 := Drift(k2, os(3));
    DriftKeepsFacts(k0, os(1), d);
    DriftKeepsFacts(k1, os(2), d);
    DriftKeepsFacts(k2, os(3), d);
    MountedLast(k1, d, MountDir(id), true, os(2));
    CheckedHit(env, s.(kernel := k3), id, d, size, key, os);
  }

  lemma CheckedHit(env: Env, s: System, id: Text, d: Device, size: u64, key: Text, os: Script)
    requires d in s.kernel.devices && s.kernel.mounts != [] && s.kernel.mounts[|s.kernel.mounts| - 1] == FrozenMount(id, d)
    requires var reply := CheckHit(env, s, id, d, size, key, os).1; reply.Answer? && reply.response.Ready?
    ensures var r := CheckHit(env, s, id, d, size, key, os).0;
            && r.manager.images == s.manager.images[id := Image(d, size, key, Validated, [])]
            && FrozenMount(id, d) in r.kernel.mounts
            && d in r.kernel.devices
            && var before, after := s.kernel.devices[d], r.kernel.devices[d];
               && after == before
               && after.content.sentinel.Some? && ParseSentinel(after.content.sentinel.value) == Some(key)
               && HasKey(env, r.kernel, d, key)
  {
    hide MountDir, TreeKey, ParseSentinel, Volume, RejectHit, Unmount, Frozen, Drift;
    RejectHitRejects(s, id, os);
    var ms := s.kernel.mounts;
    FrozenIfMounted(ms, id, d);
    assert ms == ms[..|ms| - 1] + [FrozenMount(id, d)];
    NewMountLeads(ms[..|ms| - 1], id, d, true, SENTINEL);
    DriftKeepsFacts(s.kernel, os(5), d);
    var (k4, sentinel) := ReadSentinel(s.kernel, MountDir(id), os(5));
    DriftKeepsFacts(k4, os(6), d);
    var (k5, computed) := HashSource(env.hash, env.lists, k4, MountDir(id), os(6));
    if sentinel == Some(key) && computed == Some(key) {
      HashReadsTheNewMount(env, k4, id, d, true, os(6), key);
      assert k5.mounts[|ms| - 1] == FrozenMount(id, d);
    }
  }

  lemma RejectHitRejects(s: System, id: Text, os: Script)
    ensures forall k: Kernel, reason ::
              var reply := RejectHit(s.(kernel := k), id, reason, os, 10).1; reply.Answer? ==> reply.response.Rejected?
  {
  }

  // ----- Aborting undoes -----

  /** The mounts that binding an overlay adds, on top of those there. */
  function Stack(overlays: seq<Overlay>, lowers: seq<Mount>, n: nat): (r: seq<Mount>)
    requires n <= |overlays| == |lowers|
  {
    if n == 0 then [] else Stack(overlays, lowers, n - 1) + [Plain(StagingDir(overlays[n - 1].binding)), lowers[n - 1]]
  }

  ghost predicate OnTheirTargets(overlays: seq<Overlay>, lowers: seq<Mount>)
  {
    && |overlays| == |lowers|
    && forall i :: 0 <= i < |overlays| ==> lowers[i].OverlayOn? && lowers[i].point == TargetPlace(overlays[i].target)
  }

  function Bindings(overlays: seq<Overlay>, n: nat): (r: set<Text>)
    requires n <= |overlays|
  {
    if n == 0 then {} else {overlays[n - 1].binding} + Bindings(overlays, n - 1)
  }

  function Targets(overlays: seq<Overlay>, n: nat): (r: set<Text>)
    requires n <= |overlays|
  {
    if n == 0 then {} else {overlays[n - 1].target} + Targets(overlays, n - 1)
  }

  /** The last mount comes off by its own path. */
  lemma LastComesOff(k: Kernel, ms: seq<Mount>, m: Mount, d: Device, at: nat)
    requires k.mounts == ms + [m]
    ensures Unmount(k, m.point, Quiet(d)(at)) == (k.(mounts := ms), true)
  {
    assert Top(k.mounts, m.point) == Some(|ms|);
    assert RemoveMount(k.mounts, |ms|) == ms;
  }

  lemma {:induction false} OverlaysComeOff(s: System, base: seq<Mount>, overlays: seq<Overlay>, lowers: seq<Mount>, n: nat, d: Device, at: nat)
    requires n <= |overlays| && OnTheirTargets(overlays, lowers) && s.kernel.mounts == base + Stack(overlays, lowers, n)
    ensures RollbackOverlays(s, overlays, n, Quiet(d), at) ==
            (System(s.kernel.(mounts := base),
                    s.manager.(bindings := s.manager.bindings - Bindings(overlays, n), targets := s.manager.targets - Targets(overlays, n))), true)
    decreases n
  {
    hide Unmount, TargetPlace, StagingDir;
    if n == 0 {
      assert base + [] == base;
      assert s.manager.bindings - {} == s.manager.bindings && s.manager.targets - {} == s.manager.targets;
    } else {
      var o, below := overlays[n - 1], base + Stack(overlays, lowers, n - 1);
      var staged := below + [Plain(StagingDir(o.binding))];
      assert s.kernel.mounts == staged + [lowers[n - 1]];
      LastComesOff(s.kernel, staged, lowers[n - 1], d, at);
      LastComesOff(s.kernel.(mounts := staged), below, Plain(StagingDir(o.binding)), d, at + 1);
      var released := s.manager.(bindings := s.manager.bindings - {o.binding}, targets := s.manager.targets - {o.target});
      OverlaysComeOff(System(s.kernel.(mounts := below), released), base, overlays, lowers, n - 1, d, at + 2);
      assert s.manager.bindings - {o.binding} - Bindings(overlays, n - 1) == s.manager.bindings - Bindings(overlays, n);
      assert s.manager.targets - {o.target} - Targets(overlays, n - 1) == s.manager.targets - Targets(overlays, n);
    }
  }

  /**
   In an undisturbed system, aborting the image mounted last takes down all its overlays, even those nested in each
   other or above the cache directory, then the image, and leaves the table and the registry without a trace of it.
   */
  lemma AbortUndoes(s: System, base: seq<Mount>, id: Text, lowers: seq<Mount>, d: Device)
    requires id in s.manager.images && OnTheirTargets(s.manager.images[id].overlays, lowers)
    requires var overlays := s.manager.images[id].overlays;
             s.kernel.mounts == base + [FrozenMount(id, d)] + Stack(overlays, lowers, |overlays|)
    ensures var overlays := s.manager.images[id].overlays;
            Abort(s, id, Quiet(d)) ==
            (System(s.kernel.(mounts := base),
                    Manager(s.manager.images - {id}, s.manager.bindings - Bindings(overlays, |overlays|),
                            s.manager.targets - Targets(overlays, |overlays|))),
             Answer(ReadyFor(AbortsBuild, id)))
  {
    hide Unmount, RollbackOverlays, Stack, MountDir, Bindings, Targets;
    var overlays := s.manager.images[id].overlays;
    var forgotten := s.(manager := s.manager.(images := s.manager.images - {id}));
    var below := base + [FrozenMount(id, d)];
    OverlaysComeOff(forgotten, below, overlays, lowers, |overlays|, d, 2);
    LastComesOff(s.kernel.(mounts := below), base, FrozenMount(id, d), d, 0);
  }

  // ----- Binding builds the stack -----

  /** Serves a list of overlay requests for one image, in an undisturbed system. */
  function BindAll(s: System, id: Text, overlays: seq<Overlay>, d: Device): (r: System)
    decreases |overlays|
  {
    if overlays == [] then s
    else BindOverlay(BindAll(s, id, overlays[..|overlays| - 1], d), id, overlays[|overlays| - 1].binding, overlays[|overlays| - 1].target, Quiet(d)).0
  }

  /** The requests can be served: new names, acceptable targets, and staging directories not in use. */
  predicate Bindable(s: System, overlays: seq<Overlay>)
  {
    && (forall i :: 0 <= i < |overlays| ==>
          && overlays[i].binding !in s.manager.bindings && overlays[i].target !in s.manager.targets
          && AcceptableTarget(overlays[i].target)
          && NoneAt(s.kernel.mounts, StagingDir(overlays[i].binding)))
    && (forall i, j :: 0 <= i < j < |overlays| ==>
          overlays[i].binding != overlays[j].binding && overlays[i].target != overlays[j].target)
  }

  lemma QuietMount(k: Kernel, id: Text, key: Text, binding: Text, target: Text, d: Device)
    requires NoneAt(k.mounts, StagingDir(binding))
    ensures var staged := k.mounts + [Plain(StagingDir(binding))];
            MountCacheOverlay(k, id, key, binding, target, Quiet(d))
            == (k.(mounts := staged + [OverlayOn(TargetPlace(target), LowerOf(staged, MountDir(id)), id, key)]), true)
  {
    hide StagingDir, TargetPlace, MountDir, LowerOf;
  }

  lemma StackGrows(overlays: seq<Overlay>, o: Overlay, lowers: seq<Mount>, m: Mount)
    requires |overlays| == |lowers|
    ensures Stack(overlays + [o], lowers + [m], |overlays| + 1) == Stack(overlays, lowers, |overlays|) + [Plain(StagingDir(o.binding)), m]
    ensures Bindings(overlays + [o], |overlays| + 1) == {o.binding} + Bindings(overlays, |overlays|)
    ensures Targets(overlays + [o], |overlays| + 1) == {o.target} + Targets(overlays, |overlays|)
  {
    StackPrefix(overlays, [o], lowers, [m], |overlays|);
  }

  lemma {:induction false} StackPrefix(overlays: seq<Overlay>, more: seq<Overlay>, lowers: seq<Mount>, extra: seq<Mount>, n: nat)
    requires n <= |overlays| == |lowers| && |more| == |extra|
    ensures Stack(overlays + more, lowers + extra, n) == Stack(overlays, lowers, n)
    ensures Bindings(overlays + more, n) == Bindings(overlays, n) && Targets(overlays + more, n) == Targets(overlays, n)
    decreases n
  {
    if n > 0 {
      StackPrefix(overlays, more, lowers, extra, n - 1);
    }
  }

  lemma {:induction false} StackIsClear(ms: seq<Mount>, overlays: seq<Overlay>, lowers: seq<Mount>, n: nat, o: Overlay)
    requires n <= |overlays| && OnTheirTargets(overlays, lowers) && NoneAt(ms, StagingDir(o.binding))
    requires forall i :: 0 <= i < n ==> overlays[i].binding != o.binding && AcceptableTarget(overlays[i].target)
    ensures NoneAt(ms + Stack(overlays, lowers, n), StagingDir(o.binding))
    decreases n
  {
    hide StagingDir, AcceptableTarget, TargetPlace;
    if n == 0 {
      assert ms + [] == ms;
    } else {
      var last := overlays[n - 1];
      StackIsClear(ms, overlays, lowers, n - 1, o);
      if StagingDir(last.binding) == StagingDir(o.binding) { StagingDirInjective(last.binding, o.binding); }
      TargetIsNotStaging(last.target, o.binding);
      assert ms + Stack(overlays, lowers, n)
          == ms + Stack(overlays, lowers, n - 1) + [Plain(StagingDir(last.binding)), lowers[n - 1]];
    }
  }

  lemma TargetIsNotStaging(target: Text, binding: Text)
    requires AcceptableTarget(target)
    ensures TargetPlace(target) != StagingDir(binding)
  {
    hide TargetPlace;
    assert OVERLAY_ROOT <= StagingDir(binding);
  }

  /** The state after the overlays have been bound. */
  function BoundState(s: System, id: Text, overlays: seq<Overlay>, lowers: seq<Mount>): (r: System)
    requires id in s.manager.images && |overlays| == |lowers|
  {
    System(s.kernel.(mounts := s.kernel.mounts + Stack(overlays, lowers, |overlays|)),
           Manager(s.manager.images[id := s.manager.images[id].(overlays := overlays)],
                   s.manager.bindings + Bindings(overlays, |overlays|), s.manager.targets + Targets(overlays, |overlays|)))
  }

  lemma {:induction false} BoundNames(overlays: seq<Overlay>, n: nat)
    requires n <= |overlays|
    ensures forall b :: b in Bindings(overlays, n) <==> exists i :: 0 <= i < n && overlays[i].binding == b
    ensures forall t :: t in Targets(overlays, n) <==> exists i :: 0 <= i < n && overlays[i].target == t
  {
    if n > 0 {
      BoundNames(overlays, n - 1);
      assert overlays[n - 1].binding in Bindings(overlays, n) && overlays[n - 1].target in Targets(overlays, n);
    }
  }

  lemma BindOneMore(s: System, id: Text, overlays: seq<Overlay>, lowers: seq<Mount>, o: Overlay, d: Device) returns (m: Mount)
    requires id in s.manager.images && s.manager.images[id].phase == Validated
    requires OnTheirTargets(overlays, lowers) && Bindable(s, overlays + [o])
    ensures m.OverlayOn? && m.point == TargetPlace(o.target)
    ensures BindOverlay(BoundState(s, id, overlays, lowers), id, o.binding, o.target, Quiet(d)).0
         == BoundState(s, id, overlays + [o], lowers + [m])
  {
    hide StagingDir, TargetPlace, MountDir, LowerOf, MountCacheOverlay, AcceptableTarget, Stack, Bindings, Targets;
    var n, all := |overlays|, overlays + [o];
    var b := BoundState(s, id, overlays, lowers);
    assert all[n] == o && forall i :: 0 <= i < n ==> all[i] == overlays[i];
    BoundNames(overlays, n);
    StackIsClear(s.kernel.mounts, overlays, lowers, n, o);
    var key := s.manager.images[id].key;
    QuietMount(b.kernel, id, key, o.binding, o.target, d);
    var staged := b.kernel.mounts + [Plain(StagingDir(o.binding))];
    m := OverlayOn(TargetPlace(o.target), LowerOf(staged, MountDir(id)), id, key);
    StackGrows(overlays, o, lowers, m);
    assert staged + [m] == s.kernel.mounts + (Stack(overlays, lowers, n) + [Plain(StagingDir(o.binding)), m]);
    assert b.manager.bindings + {o.binding} == s.manager.bindings + ({o.binding} + Bindings(overlays, n));
    assert b.manager.targets + {o.target} == s.manager.targets + ({o.target} + Targets(overlays, n));
  }

  lemma {:induction false} BindAllStacks(s: System, id: Text, overlays: seq<Overlay>, d: Device) returns (lowers: seq<Mount>)
    requires id in s.manager.images && s.manager.images[id].phase == Validated && s.manager.images[id].overlays == []
    requires Bindable(s, overlays)
    ensures OnTheirTargets(overlays, lowers) && BindAll(s, id, overlays, d) == BoundState(s, id, overlays, lowers)
    decreases |overlays|
  {
    hide StagingDir, TargetPlace, AcceptableTarget, BindOverlay;
    if overlays == [] {
      lowers := [];
      assert s.kernel.mounts + [] == s.kernel.mounts && s.manager.bindings + {} == s.manager.bindings && s.manager.targets + {} == s.manager.targets;
      assert s.manager.images[id := s.manager.images[id].(overlays := [])] == s.manager.images;
    } else {
      var n := |overlays| - 1;
      var init, o := overlays[..n], overlays[n];
      assert overlays == init + [o];
      lowers := BindAllStacks(s, id, init, d);
      var m := BindOneMore(s, id, init, lowers, o, d);
      lowers := lowers + [m];
    }
  }

  /**
   In an undisturbed system, a hit, any overlays bound on it and an abort leave everything exactly as it was: devices,
   mount table and registry.
   */
  lemma HitBindAbortIsIdentity(env: Env, s: System, id: Text, serial: Text, size: u64, key: Text, d: Device, tree: Tree, overlays: seq<Overlay>)
    requires id !in s.manager.images && Usable(s.kernel, d, serial, size, true) && NoneAt(s.kernel.mounts, MountDir(id))
    requires HoldsSealed(s.kernel.devices[d].content, tree, key) && ValidDigest(key)
    requires TreeKey(env.hash, tree, env.lists(tree)) == Some(key)
    requires Bindable(OpenHit(env, s, id, serial, size, key, Quiet(d)).0, overlays)
    ensures var hit := OpenHit(env, s, id, serial, size, key, Quiet(d)).0;
            Abort(BindAll(hit, id, overlays, d), id, Quiet(d)) == (s, Answer(ReadyFor(AbortsBuild, id)))
  {
    hide OpenHit, Usable, NoneAt, TreeKey, ValidDigest, BindAll, Abort, MountDir, Stack, Bindings, Targets, SentinelText;
    HitAfterBuild(env, s, id, serial, size, key, d, tree);
    var hit := OpenHit(env, s, id, serial, size, key, Quiet(d)).0;
    assert hit.kernel == s.kernel.(mounts := s.kernel.mounts + [FrozenMount(id, d)]);
    var lowers := BindAllStacks(hit, id, overlays, d);
    var bound := BindAll(hit, id, overlays, d);
    AbortUndoes(bound, s.kernel.mounts, id, lowers, d);
    NamesComeBack(hit, overlays);
    assert bound.manager.images - {id} == s.manager.images;
  }

  lemma NamesComeBack(s: System, overlays: seq<Overlay>)
    requires Bindable(s, overlays)
    ensures s.manager.bindings + Bindings(overlays, |overlays|) - Bindings(overlays, |overlays|) == s.manager.bindings
    ensures s.manager.targets + Targets(overlays, |overlays|) - Targets(overlays, |overlays|) == s.manager.targets
  {
    hide AcceptableTarget, StagingDir, NoneAt;
    BoundNames(overlays, |overlays|);
  }
}
