/** The manager's registry over all runs: bindings, targets, phases and responses. */
module CacheRegistry {
  import opened Bytes
  import opened TreeHash
  import opened CacheProtocol
  import opened CacheKernel
  import opened CacheManager

  // ----- What a request can do to the registry -----

  datatype Change = Same | Tracked(image: Image) | Sealed | Bound(overlay: Overlay) | RolledBack(complete: bool)

  ghost predicate Released(m: Manager, n: Manager, overlays: seq<Overlay>)
  {
    && n.bindings <= m.bindings
    && n.targets <= m.targets
    && (forall b :: b in m.bindings && b !in n.bindings ==> exists i :: 0 <= i < |overlays| && overlays[i].binding == b)
    && (forall t :: t in m.targets && t !in n.targets ==> exists i :: 0 <= i < |overlays| && overlays[i].target == t)
  }

  ghost predicate AllReleased(n: Manager, overlays: seq<Overlay>)
  {
    forall i :: 0 <= i < |overlays| ==> overlays[i].binding !in n.bindings && overlays[i].target !in n.targets
  }

  ghost predicate Changes(m: Manager, n: Manager, id: Text, ch: Change)
  {
    match ch
    case Same => n == m
    case Tracked(image) => id !in m.images && image.overlays == [] && n == m.(images := m.images[id := image])
    case Sealed =>
      && id in m.images && m.images[id].phase == Building
      && n == m.(images := m.images[id := m.images[id].(phase := Validated)])
    case Bound(o) =>
      && id in m.images && m.images[id].phase == Validated
      && o.binding !in m.bindings && o.target !in m.targets
      && n == Manager(m.images[id := m.images[id].(overlays := m.images[id].overlays + [o])], m.bindings + {o.binding}, m.targets + {o.target})
    case RolledBack(complete) =>
      && id in m.images
      && n.images == m.images - {id}
      && Released(m, n, m.images[id].overlays)
      && (complete ==> AllReleased(n, m.images[id].overlays))
  }

  /** A rejection means the image is not tracked any more, only a failed rollback keeps reservations, and only a mounted overlay adds some. */
  ghost predicate Explains(m: Manager, n: Manager, id: Text, ch: Change, reply: Reply)
  {
    && Changes(m, n, id, ch)
    && (reply.Answer? && reply.response.Rejected? ==> id !in n.images && (ch == RolledBack(true) || (ch == Same && id !in m.images)))
    && (ch == RolledBack(false) ==> reply == Failed(RollbackFailed))
    && (ch.Bound? ==> reply == Answer(Ready(MountsOverlay, id, Some(ch.overlay.binding), None, None)))
    && (reply.Answer? && reply.response.Ready? && reply.response.action == MountsOverlay ==> ch.Bound?)
  }

  lemma {:induction false} RollbackOverlaysReleases(s: System, overlays: seq<Overlay>, n: nat, os: Script, at: nat)
    requires n <= |overlays|
    ensures var (r, ok) := RollbackOverlays(s, overlays, n, os, at);
            && r.manager.images == s.manager.images
            && Released(s.manager, r.manager, overlays[..n])
            && (ok ==> AllReleased(r.manager, overlays[..n]))
    decreases n
  {
    hide Unmount, TargetPlace, StagingDir;
    if n > 0 {
      var o := overlays[n - 1];
      var (k1, target) := Unmount(s.kernel, TargetPlace(o.target), os(at));
      if target {
        var (k2, staging) := Unmount(k1, StagingDir(o.binding), os(at + 1));
        if staging {
          var released := s.manager.(bindings := s.manager.bindings - {o.binding}, targets := s.manager.targets - {o.target});
          RollbackOverlaysReleases(System(k2, released), overlays, n - 1, os, at + 2);
          var (r, ok) := RollbackOverlays(System(k2, released), overlays, n - 1, os, at + 2);
          ReleaseOneMore(s.manager, released, r.manager, overlays, n - 1, ok);
        }
      }
    }
  }

  lemma ReleaseOneMore(m: Manager, released: Manager, n: Manager, overlays: seq<Overlay>, k: nat, ok: bool)
    requires k < |overlays|
    requires released == m.(bindings := m.bindings - {overlays[k].binding}, targets := m.targets - {overlays[k].target})
    requires Released(released, n, overlays[..k]) && (ok ==> AllReleased(n, overlays[..k]))
    ensures Released(m, n, overlays[..k + 1]) && (ok ==> AllReleased(n, overlays[..k + 1]))
  {
    var all := overlays[..k + 1];
    assert all[k] == overlays[k] && forall i :: 0 <= i < k ==> all[i] == overlays[..k][i];
    forall b | b in m.bindings && b !in n.bindings
      ensures exists i :: 0 <= i < |all| && all[i].binding == b
    {
      if b == overlays[k].binding {
        assert all[k].binding == b;
      } else {
        var i :| 0 <= i < k && overlays[..k][i].binding == b;
        assert all[i].binding == b;
      }
    }
    forall t | t in m.targets && t !in n.targets
      ensures exists i :: 0 <= i < |all| && all[i].target == t
    {
      if t == overlays[k].target {
        assert all[k].target == t;
      } else {
        var i :| 0 <= i < k && overlays[..k][i].target == t;
        assert all[i].target == t;
      }
    }
  }

  lemma RollbackChanges(s: System, id: Text, os: Script, at: nat) returns (ch: Change)
    ensures var (r, ok) := RollbackImage(s, id, os, at);
            && Changes(s.manager, r.manager, id, ch)
            && id !in r.manager.images
            && (if id in s.manager.images then ch.RolledBack? else ch == Same && ok)
            && (ok ==> ch != RolledBack(false))
  {
    hide RollbackOverlays, Unmount, Drift, MountDir, Released, AllReleased;
    ch := Same;
    if id in s.manager.images {
      var overlays := s.manager.images[id].overlays;
      var forgotten := s.(manager := s.manager.(images := s.manager.images - {id}));
      RollbackOverlaysReleases(forgotten, overlays, |overlays|, os, at + 2);
      assert overlays[..|overlays|] == overlays;
      var (s1, ok) := RollbackOverlays(forgotten, overlays, |overlays|, os, at + 2);
      SameSets(s.manager, forgotten.manager, s1.manager, overlays);
      ch := RolledBack(ok);
    }
  }

  lemma SameSets(m: Manager, forgotten: Manager, n: Manager, overlays: seq<Overlay>)
    requires m.bindings == forgotten.bindings && m.targets == forgotten.targets
    ensures Released(forgotten, n, overlays) == Released(m, n, overlays)
  {
  }

  lemma RejectExplains(s: System, id: Text, action: Action, reason: Reason, os: Script, at: nat) returns (ch: Change)
    requires id in s.manager.images
    ensures var (r, reply) := Reject(s, id, action, reason, os, at);
            && Explains(s.manager, r.manager, id, ch, reply)
            && (reply.Answer? ==> reply.response == Rejected(action, id, reason))
  {
    hide RollbackImage, Changes;
    ch := RollbackChanges(s, id, os, at);
  }

  // ----- Each request -----

  /** The answer, if there is one, fits the request. */
  ghost predicate Fits(reply: Reply, request: Request)
  {
    reply.Answer? ==> ValidFor(reply.response, request)
  }

  lemma BeginBuildExplains(s: System, request: Request, os: Script) returns (ch: Change)
    requires request.PrepareBuild?
    ensures var (r, reply) := BeginBuild(s, request.image, request.serial, request.size, request.key, os);
            Explains(s.manager, r.manager, request.image, ch, reply) && Fits(reply, request)
  {
    hide Drift, Discover, Format, EmptyDirectory, MountDisk, Unmount, CreateSource, MountDir;
    var (r, reply) := BeginBuild(s, request.image, request.serial, request.size, request.key, os);
    ch := if r.manager == s.manager then Same else Tracked(r.manager.images[request.image]);
  }

  lemma OpenHitExplains(env: Env, s: System, request: Request, os: Script) returns (ch: Change)
    requires request.PrepareHit? && ValidDigest(request.key)
    ensures var (r, reply) := OpenHit(env, s, request.image, request.serial, request.size, request.key, os);
            Explains(s.manager, r.manager, request.image, ch, reply) && Fits(reply, request)
  {
    hide Drift, Discover, EmptyDirectory, MountDisk, Unmount, ReadSentinel, HashSource, MountDir, ValidDigest;
    var (r, reply) := OpenHit(env, s, request.image, request.serial, request.size, request.key, os);
    ch := if r.manager == s.manager then Same else Tracked(r.manager.images[request.image]);
  }

  lemma TakeBatchExplains(s: System, request: Request, data: seq<byte>, os: Script) returns (ch: Change)
    requires request.ImportBatch?
    ensures var (r, reply) := TakeBatch(s, request.image, request.entries, request.dataLen, data, os);
            Explains(s.manager, r.manager, request.image, ch, reply) && Fits(reply, request)
  {
    hide ImportInto, Reject, MountDir;
    ch := Same;
    var id := request.image;
    if |data| == request.dataLen && id in s.manager.images && s.manager.images[id].phase == Building {
      var (k1, ok) := ImportInto(s.kernel, MountDir(id), request.entries, data, os(0));
      if !ok {
        ch := RejectExplains(s.(kernel := k1), id, ImportsBatch, MountFailed, os, 1);
      }
    }
  }

  lemma SealExplains(env: Env, s: System, request: Request, os: Script) returns (ch: Change)
    requires request.SealBuild? && ValidDigest(request.key)
    ensures var (r, reply) := Seal(env, s, request.image, request.key, os);
            Explains(s.manager, r.manager, request.image, ch, reply) && Fits(reply, request)
  {
    hide HashSource, WriteSentinel, Drift, Unmount, Reject, FinishSeal, MountDir, ValidDigest;
    var id, key := request.image, request.key;
    ch := Same;
    if id in s.manager.images && s.manager.images[id].phase == Building && s.manager.images[id].key == key {
      var (k1, computed) := HashSource(env.hash, env.lists, s.kernel, MountDir(id), os(0));
      if computed.None? {
        ch := RejectExplains(s.(kernel := k1), id, SealsBuild, InvalidSourceTree, os, 20);
      } else if computed.value != key {
        ch := RejectExplains(s.(kernel := k1), id, SealsBuild, SourceKeyMismatch, os, 20);
      } else {
        var (k2, wrote) := WriteSentinel(k1, MountDir(id), key, os(1));
        var k3 := Drift(k2, os(2));
        var (k4, unmounted) := Unmount(k3, MountDir(id), os(3));
        if wrote && os(2).ok && unmounted {
          ch := FinishSealExplains(env, s.(kernel := k4), request, os);
        }
      }
    }
  }

  lemma FinishSealExplains(env: Env, s: System, request: Request, os: Script) returns (ch: Change)
    requires request.SealBuild? && ValidDigest(request.key) && request.image in s.manager.images
    requires s.manager.images[request.image].phase == Building
    ensures var (r, reply) := FinishSeal(env, s, request.image, request.key, os);
            Explains(s.manager, r.manager, request.image, ch, reply) && Fits(reply, request)
  {
    hide HashSource, SetReadOnly, Drift, MountDisk, Reject, MountDir, ValidDigest, Hex;
    var id, key := request.image, request.key;
    var image := s.manager.images[id];
    var (k5, frozen) := SetReadOnly(s.kernel, image.device, os(4));
    var (k6, digest) := HashRaw(env.hash, k5, image.device, image.size, os(5));
    var (k7, mounted) := MountDisk(k6, image.device, MountDir(id), true, os(6));
    var k8 := Drift(k7, os(7));
    var (k9, remounted) := HashSource(env.hash, env.lists, k8, MountDir(id), os(8));
    ch := Same;
    if frozen && digest.Some? && mounted && os(7).ok && remounted.Some? {
      if remounted.value != key {
        ch := RejectExplains(s.(kernel := k9), id, SealsBuild, SourceKeyMismatch, os, 20);
      } else {
        HexIsValidDigest(env.hash(RawBytes(k6.devices[image.device].content, image.size)));
        ch := Sealed;
      }
    }
  }

  lemma BindOverlayExplains(s: System, request: Request, os: Script) returns (ch: Change)
    requires request.MountOverlay? && ValidToken(request.binding)
    ensures var (r, reply) := BindOverlay(s, request.image, request.binding, request.target, os);
            Explains(s.manager, r.manager, request.image, ch, reply) && Fits(reply, request)
    ensures ch.Bound? ==> ch.overlay == Overlay(request.binding, request.target) && AcceptableTarget(request.target)
  {
    hide MountCacheOverlay, Reject, AcceptableTarget, ValidToken;
    var id := request.image;
    ch := Same;
    if id in s.manager.images && s.manager.images[id].phase == Validated
       && request.binding !in s.manager.bindings && request.target !in s.manager.targets && AcceptableTarget(request.target) {
      var (k1, ok) := MountCacheOverlay(s.kernel, id, s.manager.images[id].key, request.binding, request.target, os);
      if !ok {
        ch := RejectExplains(s.(kernel := k1), id, MountsOverlay, MountFailed, os, 20);
      } else {
        ch := Bound(Overlay(request.binding, request.target));
      }
    }
  }

  /** Every request changes the registry in one of five ways, and every answer passes the host's validation. */
  lemma HandleExplains(env: Env, s: System, request: Request, data: seq<byte>, os: Script) returns (ch: Change)
    ensures var (r, reply) := Handle(env, s, request, data, os);
            Explains(s.manager, r.manager, request.image, ch, reply) && Fits(reply, request)
    ensures ch.Bound? ==> request.MountOverlay? && ch.overlay == Overlay(request.binding, request.target) && AcceptableTarget(request.target)
  {
    hide AcceptableTarget, BeginBuild, OpenHit, TakeBatch, Seal, BindOverlay, RollbackImage, Changes, ValidBatch, ValidDigest, ValidToken;
    if !Valid(request) {
      ch := Same;
      NoChange(s.manager, request.image);
    } else {
      match request
      case PrepareBuild(_, _, _, _, _) => ch := BeginBuildExplains(s, request, os);
      case PrepareHit(_, _, _, _) => ch := OpenHitExplains(env, s, request, os);
      case ImportBatch(_, _, _) => ch := TakeBatchExplains(s, request, data, os);
      case SealBuild(_, _) => ch := SealExplains(env, s, request, os);
      case AbortBuild(id) => ch := RollbackChanges(s, id, os, 0);
      case MountOverlay(_, _, _) => ch := BindOverlayExplains(s, request, os);
    }
  }

  lemma NoChange(m: Manager, id: Text)
    ensures Changes(m, m, id, Same)
  {
  }
}
