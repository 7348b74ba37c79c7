/** Every overlay mounted in any run of safe requests shows the tree its image's key stands for. */
module CacheOverlayRuns {
  import opened Bytes
  import opened TreeHash
  import opened CacheProtocol
  import opened CacheKernel
  import opened CacheManager
  import opened CacheInvariant
  import opened CacheRegistry
  import opened CacheRuns
  import opened CacheOverlays

  // ----- Requests that mount no overlay -----

  lemma OwnedAfter(s: System, r: System, id: Text, ch: Change)
    requires Owned(s.kernel.mounts, s.manager.images) && Stays(s.kernel.mounts, r.kernel.mounts, id)
    requires Changes(s.manager, r.manager, id, ch) && !ch.Bound?
    requires ch.Tracked? ==> NoneFor(r.kernel.mounts, id)
    ensures Owned(r.kernel.mounts, r.manager.images)
  {
    hide Stays, Among, Released, AllReleased;
    OwnedFewer(s.kernel.mounts, r.kernel.mounts, s.manager.images, id);
    forall x | x in r.manager.images
      ensures Within(r.kernel.mounts, x, r.manager.images[x].overlays, |r.manager.images[x].overlays|)
    {
      if x in s.manager.images {
        assert Within(r.kernel.mounts, x, s.manager.images[x].overlays, |s.manager.images[x].overlays|);
        assert r.manager.images[x].overlays == s.manager.images[x].overlays;
      }
    }
  }

  lemma StandingKept(ms: seq<Mount>, ns: seq<Mount>, id: Text, x: Text, overlays: seq<Overlay>)
    requires AllStanding(ms, x, overlays) && Stays(ms, ns, id) && x != id
    ensures AllStanding(ns, x, overlays)
  {
    hide Tidy, TargetPlace;
    forall i | 0 <= i < |overlays|
      ensures Standing(ns, x, overlays[i])
    {
      assert Standing(ms, x, overlays[i]);
    }
  }

  lemma PresentAfter(s: System, r: System, id: Text, ch: Change, reply: Reply)
    requires Present(s.kernel.mounts, s.manager.images) && Smooth(s, r, id, reply)
    requires Changes(s.manager, r.manager, id, ch) && !ch.Bound?
    ensures Present(r.kernel.mounts, r.manager.images)
  {
    hide Stays, AllStanding, Released, AllReleased, Claimed, Keeps, NoneFor;
    forall x | x in r.manager.images
      ensures AllStanding(r.kernel.mounts, x, r.manager.images[x].overlays)
    {
      if x != id {
        assert x in s.manager.images && r.manager.images[x].overlays == s.manager.images[x].overlays;
        StandingKept(s.kernel.mounts, r.kernel.mounts, id, x, s.manager.images[x].overlays);
      }
    }
  }

  lemma Assemble(env: Env, s: System, r: System, id: Text, ch: Change, reply: Reply)
    requires OverlayInv(env, s) && Inv(env, r) && Changes(s.manager, r.manager, id, ch) && !ch.Bound?
    requires Smooth(s, r, id, reply) && Keeps(s.kernel, r.kernel, {id})
    ensures OverlayInv(env, r)
  {
    hide Inv, Registered, Tidy, OverlaysOk, Claimed, Owned, Present, Keeps, NoneFor, Released, AllReleased, AllStanding;
    ChangeKeepsRegistered(s.manager, r.manager, id, ch);
    OverlaysCarry(env, s.kernel, r.kernel, id);
    OwnedAfter(s, r, id, ch);
    PresentAfter(s, r, id, ch, reply);
    StaysIsTidy(s.kernel.mounts, r.kernel.mounts, id);
  }

  // ----- Mounting an overlay -----

  lemma BoundOwned(ms: seq<Mount>, ns: seq<Mount>, m: Manager, n: Manager, id: Text, o: Overlay, mount: Mount)
    requires Owned(ms, m.images) && Stays(ms, ns, id) && Changes(m, n, id, Bound(o))
    requires mount.OverlayOn? && mount.image == id && mount.point == TargetPlace(o.target)
    ensures Owned(ns + [mount], n.images)
  {
    hide TargetPlace, Stays;
    OwnedFewer(ms, ns, m.images, id);
    var all := n.images[id].overlays;
    var last := |all| - 1;
    forall x | x in n.images
      ensures Within(ns + [mount], x, n.images[x].overlays, |n.images[x].overlays|)
    {
      assert Within(ns, x, m.images[x].overlays, |m.images[x].overlays|);
      forall w | w in ns + [mount] && w.OverlayOn? && w.image == x
        ensures Among(w, n.images[x].overlays, |n.images[x].overlays|)
      {
        if w in ns {
          assert Among(w, m.images[x].overlays, |m.images[x].overlays|);
          var i :| 0 <= i < |m.images[x].overlays| && TargetPlace(m.images[x].overlays[i].target) == w.point;
          assert n.images[x].overlays[i] == m.images[x].overlays[i];
        } else {
          assert w == mount && all[last] == o;
        }
      }
    }
  }

  lemma BoundClaimed(ms: seq<Mount>, ns: seq<Mount>, targets: set<Text>, target: Text, mount: Mount, id: Text)
    requires Claimed(ms, targets) && Stays(ms, ns, id) && mount.point == TargetPlace(target)
    ensures Claimed(ns + [mount], targets + {target})
  {
    hide TargetPlace, Stays;
    ClaimedFewer(ms, ns, targets, id);
    forall w | w in ns + [mount] && w.OverlayOn?
      ensures exists t :: t in targets + {target} && TargetPlace(t) == w.point
    {
      if w in ns {
        var t :| t in targets && TargetPlace(t) == w.point;
        assert t in targets + {target};
      } else {
        assert target in targets + {target};
      }
    }
  }

  lemma BoundPresent(ms: seq<Mount>, ns: seq<Mount>, m: Manager, n: Manager, id: Text, o: Overlay, mount: Mount)
    requires Present(ms, m.images) && Changes(m, n, id, Bound(o)) && forall w :: w in ms ==> w in ns
    requires mount.OverlayOn? && mount.image == id && mount.point == TargetPlace(o.target)
    ensures Present(ns + [mount], n.images)
  {
    hide TargetPlace;
    var all := ns + [mount];
    forall x, i | x in n.images && 0 <= i < |n.images[x].overlays|
      ensures Standing(all, x, n.images[x].overlays[i])
    {
      if x == id && i == |m.images[id].overlays| {
        assert mount in all;
      } else {
        var w := n.images[x].overlays[i];
        assert w == m.images[x].overlays[i];
        assert AllStanding(ms, x, m.images[x].overlays);
        assert Standing(ms, x, w);
        var v :| v in ms && v.OverlayOn? && v.image == x && v.point == TargetPlace(w.target);
        assert v in all;
      }
    }
  }

  lemma BoundOverlaysOk(env: Env, k: Kernel, l: Kernel, ns: seq<Mount>, mount: Mount, id: Text)
    requires OverlaysOk(env, k) && Stays(k.mounts, ns, id) && l.mounts == ns + [mount] && Keeps(k, l, {})
    requires mount.OverlayOn? && OverlayOk(env, l, mount)
    ensures OverlaysOk(env, l)
  {
    hide Tidy, Coherent, TreeKey;
    forall m | m in l.mounts && m.OverlayOn?
      ensures OverlayOk(env, l, m)
    {
      if m in ns {
        assert OverlayOk(env, k, m);
        assert m.image !in {};
      }
    }
  }

  /** Neither hides the cache directory nor spells the place of another reserved target. */
  predicate SafeTarget(s: System, target: Text)
  {
    Clear(target) && forall t :: t in s.manager.targets && t != target ==> TargetPlace(t) != TargetPlace(target)
  }

  /** A safe overlay on a validated image gets that image's tree. */
  lemma BindKeepsOverlayInv(env: Env, s: System, id: Text, binding: Text, target: Text, os: Script)
    requires OverlayInv(env, s) && AcceptableTarget(target) && SafeTarget(s, target)
    requires id in s.manager.images && s.manager.images[id].phase == Validated
    requires binding !in s.manager.bindings && target !in s.manager.targets
    requires MountCacheOverlay(s.kernel, id, s.manager.images[id].key, binding, target, os).1
    ensures OverlayInv(env, BindOverlay(s, id, binding, target, os).0)
  {
    hide Inv, Registered, Tidy, OverlaysOk, Claimed, Owned, Present, Keeps, Stays, MountCacheOverlay,
      TargetPlace, Clear, MountDir, GoodPlace, AcceptableTarget, LowerOf, HasKey, FrozenMount;
    var k, image := s.kernel, s.manager.images[id];
    var r := BindOverlay(s, id, binding, target, os).0;
    var o := Overlay(binding, target);
    BindOverlayKeepsInv(env, s, id, binding, target, os);
    Opening(env, s, id);
    MountCacheOverlayOn(k, k, id, image.key, binding, target, os);
    MountCacheOverlayStays(k, id, image.key, binding, target, os);
    var before := BeforeOverlay(k, binding, os);
    var ns := before.mounts;
    var mount := OverlayOn(TargetPlace(target), LowerOf(ns, MountDir(id)), id, image.key);
    assert r.kernel.mounts == ns + [mount];
    assert Changes(s.manager, r.manager, id, Bound(o));
    TrackedIsOk(env, s, id);
    TrackedIsOk(env, r, id);
    FrozenStillThere(k, ns, binding, id, image.device);
    StaysIsTidy(k.mounts, ns, id);
    UncoveredLower(ns, id, image.device);
    assert OverlayOk(env, r.kernel, mount);
    BoundOverlaysOk(env, k, r.kernel, ns, mount, id);
    FreshTarget(s, target);
    ClearIsGood(target);
    StillClear(k.mounts, ns, TargetPlace(target), id);
    assert forall i :: 0 <= i < |ns| && ns[i].OverlayOn? ==> ns[i] in ns;
    AppendOverlayTidy(ns, mount);
    BoundClaimed(k.mounts, ns, s.manager.targets, target, mount, id);
    BoundPresent(k.mounts, ns, s.manager, r.manager, id, o, mount);
    BoundOwned(k.mounts, ns, s.manager, r.manager, id, o, mount);
    ChangeKeepsRegistered(s.manager, r.manager, id, Bound(o));
  }

  lemma FrozenStillThere(k: Kernel, ns: seq<Mount>, binding: Text, id: Text, d: Device)
    requires ns == k.mounts + [Plain(StagingDir(binding))] && FrozenMount(id, d) in k.mounts
    ensures FrozenMount(id, d) in ns
  {
  }

  // ----- Any request -----

  /** A request for an overlay on a target that is not refused. */
  predicate Binds(ask: Ask, target: Text)
  {
    ask.request.MountOverlay? && ask.request.target == target && AcceptableTarget(target)
  }

  /** Whether a request may be served in a state: only the target of an overlay is in question. */
  predicate SafeAt(s: System, ask: Ask)
  {
    ask.request.MountOverlay? && Binds(ask, ask.request.target) ==> SafeTarget(s, ask.request.target)
  }

  /** Every request of the run is safe in the state it meets. */
  ghost predicate SafeRun(env: Env, s: System, asks: seq<Ask>)
  {
    forall n :: 0 <= n < |asks| ==> SafeAt(Run(env, s, asks[..n]), asks[n])
  }

  lemma BindSmooth(env: Env, s: System, id: Text, binding: Text, target: Text, os: Script)
    requires OverlayInv(env, s) && BindOverlay(s, id, binding, target, os).1 != Answer(Ready(MountsOverlay, id, Some(binding), None, None))
    ensures Smooth(s, BindOverlay(s, id, binding, target, os).0, id, BindOverlay(s, id, binding, target, os).1)
  {
    hide OverlayInv, Stays, Keeps, NoneFor, Smooth, MountCacheOverlay, RollbackImage, AcceptableTarget, Tidy;
    Opening(env, s, id);
    SmoothKernel(env, s, s.kernel, id);
    if id in s.manager.images {
      var image := s.manager.images[id];
      var (k1, ok) := MountCacheOverlay(s.kernel, id, image.key, binding, target, os);
      if !ok {
        MountCacheOverlayOn(s.kernel, s.kernel, id, image.key, binding, target, os);
        StaysIsTidy(s.kernel.mounts, s.kernel.mounts, id);
        MountCacheOverlayStays(s.kernel, id, image.key, binding, target, os);
        RejectSmooth(env, s, k1, id, os, 20);
      }
    }
  }

  lemma HandleSmooth(env: Env, s: System, request: Request, data: seq<byte>, os: Script)
    requires OverlayInv(env, s) && !request.MountOverlay?
    ensures Smooth(s, Handle(env, s, request, data, os).0, request.image, Handle(env, s, request, data, os).1)
  {
    hide OverlayInv, Stays, Keeps, Smooth, Valid, BeginBuild, OpenHit, TakeBatch, Seal, Abort;
    Opening(env, s, request.image);
    SmoothKernel(env, s, s.kernel, request.image);
    match request
    case PrepareBuild(id, serial, size, key, _) => BeginBuildSmooth(env, s, id, serial, size, key, os);
    case PrepareHit(id, serial, size, key) => OpenHitSmooth(env, s, id, serial, size, key, os);
    case ImportBatch(id, entries, dataLen) => TakeBatchSmooth(env, s, id, entries, dataLen, data, os);
    case SealBuild(id, key) => SealSmooth(env, s, id, key, os);
    case AbortBuild(id) => AbortSmooth(env, s, id, os);
    case MountOverlay(_, _, _) =>
  }

  lemma OverlayInvIsInv(env: Env, s: System)
    requires OverlayInv(env, s)
    ensures Inv(env, s)
  {
  }

  lemma ServeKeepsOverlayInv(env: Env, s: System, ask: Ask)
    requires OverlayInv(env, s) && SafeAt(s, ask)
    ensures OverlayInv(env, Serve(env, s, ask).0)
  {
    hide OverlayInv, Inv, Keeps, Smooth, Handle, Changes, SafeTarget, AcceptableTarget;
    var request, id := ask.request, ask.request.image;
    var (r, reply) := Serve(env, s, ask);
    OverlayInvIsInv(env, s);
    HandleKeepsInv(env, s, request, ask.data, ask.os);
    var ch := HandleExplains(env, s, request, ask.data, ask.os);
    if ch.Bound? {
      ServeBindKeepsOverlayInv(env, s, ask);
    } else {
      ServeSmooth(env, s, ask);
      Assemble(env, s, r, id, ch, reply);
    }
  }

  lemma ServeSmooth(env: Env, s: System, ask: Ask)
    requires OverlayInv(env, s)
    requires var reply := Serve(env, s, ask).1; ask.request.MountOverlay? ==> !(reply.Answer? && reply.response.Ready?)
    ensures Smooth(s, Serve(env, s, ask).0, ask.request.image, Serve(env, s, ask).1)
  {
    hide OverlayInv, Stays, Keeps, Smooth, Valid, BindOverlay;
    if ask.request.MountOverlay? {
      var id := ask.request.image;
      Opening(env, s, id);
      SmoothKernel(env, s, s.kernel, id);
      if Valid(ask.request) {
        BindSmooth(env, s, id, ask.request.binding, ask.request.target, ask.os);
      }
    } else {
      HandleSmooth(env, s, ask.request, ask.data, ask.os);
    }
  }

  lemma ServeBindKeepsOverlayInv(env: Env, s: System, ask: Ask)
    requires OverlayInv(env, s) && ask.request.MountOverlay? && SafeTarget(s, ask.request.target)
    requires Serve(env, s, ask).1.Answer? && Serve(env, s, ask).1.response.Ready?
    ensures OverlayInv(env, Serve(env, s, ask).0)
  {
    hide OverlayInv, SafeTarget, Valid, MountCacheOverlay, RollbackImage, AcceptableTarget;
    BindKeepsOverlayInv(env, s, ask.request.image, ask.request.binding, ask.request.target, ask.os);
  }

  lemma SafePrefix(env: Env, s: System, asks: seq<Ask>)
    requires SafeRun(env, s, asks) && asks != []
    ensures var before := asks[..|asks| - 1];
            SafeRun(env, s, before) && SafeAt(Run(env, s, before), asks[|asks| - 1])
  {
    hide SafeAt, Run;
    var before := asks[..|asks| - 1];
    forall n | 0 <= n < |before|
      ensures SafeAt(Run(env, s, before[..n]), before[n])
    {
      assert before[..n] == asks[..n];
    }
  }

  lemma {:induction false} RunKeepsOverlayInv(env: Env, s: System, asks: seq<Ask>)
    requires OverlayInv(env, s) && SafeRun(env, s, asks)
    ensures OverlayInv(env, Run(env, s, asks))
    decreases |asks|
  {
    hide OverlayInv, SafeRun, SafeAt, Serve;
    if asks != [] {
      var before := asks[..|asks| - 1];
      SafePrefix(env, s, asks);
      RunKeepsOverlayInv(env, s, before);
      ServeKeepsOverlayInv(env, Run(env, s, before), asks[|asks| - 1]);
    }
  }

  // ----- Whole runs -----

  /** A table the manager can start from: no overlays yet, and nothing mounted over a mount point of an image. */
  ghost predicate CleanStart(k: Kernel)
  {
    Coherent(k.mounts) && Tidy(k.mounts) && forall i :: 0 <= i < |k.mounts| ==> !k.mounts[i].OverlayOn?
  }

  lemma StartIsFine(env: Env, k: Kernel)
    requires CleanStart(k)
    ensures OverlayInv(env, System(k, NO_IMAGES))
  {
    hide Tidy, Coherent;
    EmptyRegistry();
  }

  lemma SafeRunKeeps(env: Env, k: Kernel, asks: seq<Ask>)
    requires CleanStart(k) && SafeRun(env, System(k, NO_IMAGES), asks)
    ensures OverlayInv(env, Run(env, System(k, NO_IMAGES), asks))
  {
    hide CleanStart, SafeRun, OverlayInv, Run;
    StartIsFine(env, k);
    RunKeepsOverlayInv(env, System(k, NO_IMAGES), asks);
  }

  /**
   In every safe run from an empty registry, whatever the system calls do: every overlay that is mounted has as its
   lower directory the tree of its image's device, which is mounted read-only and has the image's key.
   */
  lemma OverlaysShowTheirImages(env: Env, k: Kernel, asks: seq<Ask>, m: Mount)
    requires CleanStart(k) && SafeRun(env, System(k, NO_IMAGES), asks)
    requires m.OverlayOn? && m in Run(env, System(k, NO_IMAGES), asks).kernel.mounts
    ensures OverlayOk(env, Run(env, System(k, NO_IMAGES), asks).kernel, m)
  {
    hide CleanStart, SafeRun, Run, OverlayOk;
    SafeRunKeeps(env, k, asks);
  }

  /** What the registry knows of an overlay that is mounted for the image. */
  ghost predicate BelongsTo(m: Mount, image: Image)
    requires m.OverlayOn?
  {
    && image.phase == Validated
    && m.lower == SourceOf(image.device) && m.key == image.key
    && Among(m, image.overlays, |image.overlays|)
  }

  /** An image directory carries one mount, so the frozen device under an overlay is its image's device. */
  lemma OneDevicePerImage(ms: seq<Mount>, id: Text, d: Device, e: Device)
    requires Uncovered(ms) && FrozenMount(id, d) in ms && FrozenMount(id, e) in ms
    ensures d == e
  {
    hide Uncovered, MountDir, SourcePath, Top;
    var i :| 0 <= i < |ms| && ms[i] == FrozenMount(id, d);
    var j :| 0 <= j < |ms| && ms[j] == FrozenMount(id, e);
    LeadsToItsMount(ms, id, i);
    LeadsToItsMount(ms, id, j);
  }

  lemma TrackedOverlayBelongs(env: Env, s: System, m: Mount)
    requires OverlayInv(env, s) && m in s.kernel.mounts && m.OverlayOn? && m.image in s.manager.images
    ensures BelongsTo(m, s.manager.images[m.image])
  {
    hide Inv, Registered, Claimed, Present, Uncovered, MountDir, TreeKey, Among;
    var image := s.manager.images[m.image];
    assert OverlayOk(env, s.kernel, m);
    assert Within(s.kernel.mounts, m.image, image.overlays, |image.overlays|);
    TrackedIsOk(env, s, m.image);
    if image.phase == Building {
      BuildingHasNoOverlays(env, s, m.image);
      assert false;
    }
    OneDevicePerImage(s.kernel.mounts, m.image, m.lower.device, image.device);
  }

  /** Every overlay is mounted for a tracked image. */
  ghost predicate AllTracked(s: System)
  {
    forall m :: m in s.kernel.mounts && m.OverlayOn? ==> m.image in s.manager.images
  }

  lemma ServeKeepsTracked(env: Env, s: System, ask: Ask)
    requires OverlayInv(env, s) && AllTracked(s) && Serve(env, s, ask).1 != Failed(RollbackFailed)
    ensures AllTracked(Serve(env, s, ask).0)
  {
    hide OverlayInv, Handle, Released, AllReleased, Claimed, Tidy, Keeps, AllStanding;
    var (r, reply) := Serve(env, s, ask);
    var id := ask.request.image;
    var ch := HandleExplains(env, s, ask.request, ask.data, ask.os);
    if ch.Bound? {
      BoundTracked(env, s, ask);
    } else {
      ServeSmooth(env, s, ask);
      forall m | m in r.kernel.mounts && m.OverlayOn?
        ensures m.image in r.manager.images
      {
        assert m in s.kernel.mounts;
      }
    }
  }

  lemma BoundTracked(env: Env, s: System, ask: Ask)
    requires OverlayInv(env, s) && AllTracked(s) && ask.request.MountOverlay?
    requires Serve(env, s, ask).1.Answer? && Serve(env, s, ask).1.response.Ready?
    ensures AllTracked(Serve(env, s, ask).0)
  {
    hide Inv, Registered, Claimed, Present, Owned, OverlaysOk, Valid, MountCacheOverlay, RollbackImage, AcceptableTarget, Tidy, Stays;
    var id, binding, target := ask.request.image, ask.request.binding, ask.request.target;
    MountCacheOverlayStays(s.kernel, id, s.manager.images[id].key, binding, target, ask.os);
  }

  lemma {:induction false} RunKeepsTracked(env: Env, s: System, asks: seq<Ask>)
    requires OverlayInv(env, s) && AllTracked(s) && SafeRun(env, s, asks) && Failed(RollbackFailed) !in Replies(env, s, asks)
    ensures AllTracked(Run(env, s, asks))
    decreases |asks|
  {
    hide OverlayInv, SafeRun, SafeAt, Serve, AllTracked;
    if asks != [] {
      var before, ask := asks[..|asks| - 1], asks[|asks| - 1];
      var replies := Replies(env, s, asks);
      assert forall r :: r in Replies(env, s, before) ==> r in replies;
      assert replies[|replies| - 1] == Serve(env, Run(env, s, before), ask).1;
      SafePrefix(env, s, asks);
      RunKeepsOverlayInv(env, s, before);
      RunKeepsTracked(env, s, before);
      ServeKeepsTracked(env, Run(env, s, before), ask);
    }
  }

  /**
   In every safe run an overlay is mounted for a tracked image only while that image is validated, on its device, with
   its key and on one of its targets; and unless a rollback has failed, every mounted overlay has a tracked image.
   */
  lemma OverlaysBelongToValidatedImages(env: Env, k: Kernel, asks: seq<Ask>, m: Mount)
    requires CleanStart(k) && SafeRun(env, System(k, NO_IMAGES), asks)
    requires m.OverlayOn? && m in Run(env, System(k, NO_IMAGES), asks).kernel.mounts
    ensures var images := Run(env, System(k, NO_IMAGES), asks).manager.images;
            && (m.image in images ==> BelongsTo(m, images[m.image]))
            && (Failed(RollbackFailed) !in Replies(env, System(k, NO_IMAGES), asks) ==> m.image in images)
  {
    hide SafeRun, Run, Replies, OverlayInv, BelongsTo, Tidy, Coherent;
    var start := System(k, NO_IMAGES);
    var s := Run(env, start, asks);
    SafeRunKeeps(env, k, asks);
    if m.image in s.manager.images {
      TrackedOverlayBelongs(env, s, m);
    }
    if Failed(RollbackFailed) !in Replies(env, start, asks) {
      StartIsFine(env, k);
      RunKeepsTracked(env, start, asks);
    }
  }

  /** In every safe run every registered overlay is mounted on its target, for its image, with its image's tree. */
  lemma RegisteredOverlaysAreMounted(env: Env, k: Kernel, asks: seq<Ask>, id: Text, i: nat)
    requires CleanStart(k) && SafeRun(env, System(k, NO_IMAGES), asks)
    requires Live(Run(env, System(k, NO_IMAGES), asks).manager, id, i)
    ensures var s := Run(env, System(k, NO_IMAGES), asks);
            exists m :: && m in s.kernel.mounts && m.OverlayOn? && m.image == id
                        && m.point == TargetPlace(At(s.manager, id, i).target)
                        && BelongsTo(m, s.manager.images[id]) && OverlayOk(env, s.kernel, m)
  {
    hide CleanStart, SafeRun, Run, BelongsTo, OverlayOk, Inv, Registered, Tidy, Claimed, Owned, TargetPlace;
    SafeRunKeeps(env, k, asks);
    var s := Run(env, System(k, NO_IMAGES), asks);
    var o := At(s.manager, id, i);
    assert AllStanding(s.kernel.mounts, id, s.manager.images[id].overlays);
    assert Standing(s.kernel.mounts, id, o);
    var m :| m in s.kernel.mounts && m.OverlayOn? && m.image == id && m.point == TargetPlace(o.target);
    TrackedOverlayBelongs(env, s, m);
  }

  // ----- Runs that are safe by their requests alone -----

  /** No target hides the cache directory, and different targets name different places. */
  ghost predicate PlainlySafe(asks: seq<Ask>)
  {
    && (forall i, t :: 0 <= i < |asks| && Binds(asks[i], t) ==> Clear(t))
    && (forall i, j, t, u :: 0 <= i < |asks| && 0 <= j < |asks| && Binds(asks[i], t) && Binds(asks[j], u) && t != u
          ==> TargetPlace(t) != TargetPlace(u))
  }

  lemma {:induction false} ReservedWereRequested(env: Env, k: Kernel, asks: seq<Ask>, t: Text)
    requires t in Run(env, System(k, NO_IMAGES), asks).manager.targets
    ensures exists i :: 0 <= i < |asks| && Binds(asks[i], t)
    decreases |asks|
  {
    hide Handle, AllReleased, AcceptableTarget;
    if asks != [] {
      var n := |asks| - 1;
      var before, ask := asks[..n], asks[n];
      var s := Run(env, System(k, NO_IMAGES), before);
      var ch := HandleExplains(env, s, ask.request, ask.data, ask.os);
      if t in s.manager.targets {
        ReservedWereRequested(env, k, before, t);
        var i :| 0 <= i < n && Binds(before[i], t);
        assert Binds(asks[i], t);
      } else {
        assert Binds(asks[n], t);
      }
    }
  }

  lemma PlainlySafeRunsAreSafe(env: Env, k: Kernel, asks: seq<Ask>)
    requires PlainlySafe(asks)
    ensures SafeRun(env, System(k, NO_IMAGES), asks)
  {
    hide Run, TargetPlace, Clear, AcceptableTarget;
    forall n | 0 <= n < |asks|
      ensures SafeAt(Run(env, System(k, NO_IMAGES), asks[..n]), asks[n])
    {
      var s := Run(env, System(k, NO_IMAGES), asks[..n]);
      if asks[n].request.MountOverlay? && Binds(asks[n], asks[n].request.target) {
        var target := asks[n].request.target;
        forall t | t in s.manager.targets && t != target
          ensures TargetPlace(t) != TargetPlace(target)
        {
          ReservedWereRequested(env, k, asks[..n], t);
          var i :| 0 <= i < n && Binds(asks[..n][i], t);
          assert Binds(asks[i], t);
        }
      }
    }
  }
}
