/**
 The whole cache cycle when no system call fails and nobody else touches the device: a build of a tree is sealed with
 the host's key, and the image it leaves is accepted by a later cache hit.
 */
module CachePipeline {
  import opened Bytes
  import opened Utf8
  import opened Snapshot
  import opened Paths
  import opened SourceTree
  import opened TreeHash
  import opened CacheProtocol
  import opened Import
  import opened ImportRoundTrip
  import opened CacheKernel
  import opened CacheManager
  import opened CacheRuns

  // ----- The undisturbed system -----

  function Quiet(d: Device): (os: Script)
  {
    (n: nat) => Choice(true, None, d, None, None, [], NoFaults)
  }

  /** The device can be used for a build or a hit of the given kind. */
  predicate Usable(k: Kernel, d: Device, serial: Text, size: u64, readOnly: bool)
  {
    && d in k.devices
    && k.devices[d].serial == serial && k.devices[d].size == size && k.devices[d].readOnly == readOnly
    && k.devices[d].virtio && k.devices[d].block
    && !Mounted(k.mounts, d)
  }

  function Holding(k: Kernel, d: Device, content: Content, readOnly: bool): (r: Kernel)
    requires d in k.devices
  {
    k.(devices := k.devices[d := k.devices[d].(content := content, readOnly := readOnly)])
  }

  function Locked(k: Kernel, d: Device): (r: Kernel)
    requires d in k.devices
  {
    k.(devices := k.devices[d := k.devices[d].(locked := true)])
  }

  function SealedContent(tree: Tree, key: Text): (r: Content)
  {
    Content(Some(tree), Some(SentinelText(key)), [])
  }

  /** The device holds the tree and a sentinel with the key. */
  predicate HoldsSealed(content: Content, tree: Tree, key: Text)
  {
    content.source == Some(tree) && content.sentinel == Some(SentinelText(key))
  }

  function MountedAt(k: Kernel, id: Text, d: Device, readOnly: bool): (r: Kernel)
  {
    k.(mounts := k.mounts + [Disk(MountDir(id), d, readOnly)])
  }

  /** While the image is being built, its source holds `tree`. */
  function BuildState(s: System, id: Text, d: Device, size: u64, key: Text, tree: Tree): (r: System)
    requires d in s.kernel.devices
  {
    System(MountedAt(Holding(s.kernel, d, Content(Some(tree), None, []), false), id, d, false),
           s.manager.(images := s.manager.images[id := Image(d, size, key, Building, [])]))
  }

  function SealedState(s: System, id: Text, d: Device, size: u64, key: Text, tree: Tree): (r: System)
    requires d in s.kernel.devices
  {
    System(MountedAt(Locked(Holding(s.kernel, d, SealedContent(tree, key), true), d), id, d, true),
           s.manager.(images := s.manager.images[id := Image(d, size, key, Validated, [])]))
  }

  /** After a hit the device is mounted, and otherwise as it was. */
  function HitState(s: System, id: Text, d: Device, size: u64, key: Text): (r: System)
  {
    System(MountedAt(s.kernel, id, d, true), s.manager.(images := s.manager.images[id := Image(d, size, key, Validated, [])]))
  }

  lemma NewMountLeads(ms: seq<Mount>, id: Text, d: Device, readOnly: bool, name: Name)
    ensures Volume(ms + [Disk(MountDir(id), d, readOnly)], MountDir(id), name) == Some(Disk(MountDir(id), d, readOnly))
  {
    hide MountDir;
    var ns := ms + [Disk(MountDir(id), d, readOnly)];
    assert MountDir(id) <= MountDir(id) + [name];
    assert Top(ns, MountDir(id) + [name]) == Some(|ms|);
  }

  lemma NewMountComesOff(k: Kernel, id: Text, d: Device, readOnly: bool, c: Choice)
    requires c.ok && c.world.None?
    ensures Unmount(MountedAt(k, id, d, readOnly), MountDir(id), c) == (k, true)
  {
    hide MountDir;
    var ns := MountedAt(k, id, d, readOnly).mounts;
    assert Top(ns, MountDir(id)) == Some(|k.mounts|);
    assert RemoveMount(ns, |k.mounts|) == k.mounts;
  }

  lemma NotRoot(ms: seq<Mount>, d: Device)
    requires !Mounted(ms, d)
    ensures !IsRoot(ms, d) && forall i :: 0 <= i < |ms| ==> !DiskOf(ms[i], d)
  {
  }

  // ----- Building -----

  lemma PreparedBuild(s: System, id: Text, serial: Text, size: u64, key: Text, d: Device)
    requires id !in s.manager.images && Usable(s.kernel, d, serial, size, false) && NoneAt(s.kernel.mounts, MountDir(id))
    ensures BeginBuild(s, id, serial, size, key, Quiet(d))
         == (BuildState(s, id, d, size, key, EMPTY_SOURCE), Answer(ReadyFor(PreparesBuild, id)))
  {
    hide MountDir, Mounted, IsRoot, Volume;
    var k, os := s.kernel, Quiet(d);
    NotRoot(k.mounts, d);
    var k1 := Format(k, d, os(2)).0;
    assert k1 == Holding(k, d, Content(None, None, []), false);
    assert EmptyDirectory(k1, MountDir(id), os(3)) == (k1, true);
    var k3 := MountedAt(k1, id, d, false);
    assert MountDisk(k1, d, MountDir(id), false, os(4)) == (k3, true);
    NewMountLeads(k.mounts, id, d, false, SOURCE);
    var k5 := CreateSource(k3, MountDir(id), os(7)).0;
    assert k5.devices == BuildState(s, id, d, size, key, EMPTY_SOURCE).kernel.devices;
    assert k5 == BuildState(s, id, d, size, key, EMPTY_SOURCE).kernel;
  }

  lemma TakenBatch(s: System, id: Text, d: Device, size: u64, key: Text, tree: Tree, batch: seq<Piece>)
    requires d in s.kernel.devices && |Data(batch)| < U32_LIMIT
    requires ApplyBatch(tree, Entries(batch), Data(batch), NoFaults).1.Advanced?
    ensures var after := ApplyBatch(tree, Entries(batch), Data(batch), NoFaults).0;
            TakeBatch(BuildState(s, id, d, size, key, tree), id, Entries(batch), |Data(batch)|, Data(batch), Quiet(d))
            == (BuildState(s, id, d, size, key, after), Answer(ReadyFor(ImportsBatch, id)))
  {
    hide MountDir, Volume, ApplyBatch, Data, Entries;
    var b := BuildState(s, id, d, size, key, tree);
    NewMountLeads(s.kernel.mounts, id, d, false, SOURCE);
    var after := ApplyBatch(tree, Entries(batch), Data(batch), NoFaults).0;
    var c := Quiet(d)(0);
    assert ImportInto(b.kernel, MountDir(id), Entries(batch), Data(batch), c).0.devices
        == BuildState(s, id, d, size, key, after).kernel.devices;
  }

  lemma SealedBuild(env: Env, s: System, id: Text, d: Device, size: u64, key: Text, tree: Tree)
    requires d in s.kernel.devices && !Mounted(s.kernel.mounts, d)
    requires TreeKey(env.hash, tree, env.lists(tree)) == Some(key)
    ensures var (r, reply) := Seal(env, BuildState(s, id, d, size, key, tree), id, key, Quiet(d));
            && r == SealedState(s, id, d, size, key, tree)
            && reply == Answer(Ready(SealsBuild, id, None, Some(key), Some(Hex(env.hash(RawBytes(SealedContent(tree, key), size))))))
  {
    hide MountDir, Volume, TreeKey, FinishSeal, Mounted, SentinelText, Unmount;
    var b, os := BuildState(s, id, d, size, key, tree), Quiet(d);
    var k, ms := b.kernel, s.kernel.mounts;
    NewMountLeads(ms, id, d, false, SOURCE);
    NewMountLeads(ms, id, d, false, SENTINEL);
    assert HashSource(env.hash, env.lists, k, MountDir(id), os(0)) == (k, Some(key));
    var held := Holding(s.kernel, d, SealedContent(tree, key), false);
    var k2 := WriteSentinel(k, MountDir(id), key, os(1)).0;
    assert k2.devices == held.devices;
    assert k2 == MountedAt(held, id, d, false);
    NewMountComesOff(held, id, d, false, os(3));
    Remounted(env, s, id, d, size, key, tree);
  }

  lemma Remounted(env: Env, s: System, id: Text, d: Device, size: u64, key: Text, tree: Tree)
    requires d in s.kernel.devices && !Mounted(s.kernel.mounts, d)
    requires TreeKey(env.hash, tree, env.lists(tree)) == Some(key)
    ensures var b := BuildState(s, id, d, size, key, tree);
            var held := Holding(s.kernel, d, SealedContent(tree, key), false);
            var (r, reply) := FinishSeal(env, b.(kernel := held), id, key, Quiet(d));
            && r == SealedState(s, id, d, size, key, tree)
            && reply == Answer(Ready(SealsBuild, id, None, Some(key), Some(Hex(env.hash(RawBytes(SealedContent(tree, key), size))))))
  {
    hide MountDir, Volume, TreeKey, SentinelText, Reject, Hex;
    var os := Quiet(d);
    var held := Holding(s.kernel, d, SealedContent(tree, key), false);
    var frozen := Locked(Holding(s.kernel, d, SealedContent(tree, key), true), d);
    assert SetReadOnly(held, d, os(4)).0.devices == frozen.devices;
    NotRoot(s.kernel.mounts, d);
    NewMountLeads(s.kernel.mounts, id, d, true, SOURCE);
    var k7 := MountedAt(frozen, id, d, true);
    assert MountDisk(frozen, d, MountDir(id), true, os(6)) == (k7, true);
    assert HashSource(env.hash, env.lists, k7, MountDir(id), os(8)) == (k7, Some(key));
    var b := BuildState(s, id, d, size, key, tree);
    assert b.manager.images[id := b.manager.images[id].(phase := Validated)]
        == s.manager.images[id := Image(d, size, key, Validated, [])];
  }

  // ----- Hitting -----

  lemma SentinelRoundTrip(key: Text)
    requires ValidDigest(key)
    ensures ParseSentinel(SentinelText(key)) == Some(key)
  {
    var b := SentinelText(key);
    AsciiIsUtf8(b);
    assert b[..|SENTINEL_PREFIX|] == SENTINEL_PREFIX;
    assert b[|SENTINEL_PREFIX|..] == key + [NEWLINE];
  }

  /** A sentinel is read as a key exactly if it is the two lines that say so, in at most 256 bytes of UTF-8. */
  lemma SentinelExactly(b: seq<byte>, key: Text)
    ensures ParseSentinel(b) == Some(key) <==> b == Ascii("abi=1\nkey=") + key + [0x0A] && |b| <= 256 && IsUtf8(b)
  {
    hide IsUtf8;
    var prefix := Ascii("abi=1\nkey=");
    if b == prefix + key + [0x0A] {
      assert b[..|prefix|] == prefix && b[|prefix|..] == key + [0x0A];
    }
    if ParseSentinel(b) == Some(key) {
      var rest := b[|prefix|..];
      assert b == prefix + rest && rest == rest[..|rest| - 1] + [rest[|rest| - 1]];
    }
  }

  /** The image a build leaves behind is accepted by a later hit with the same key. */
  lemma HitAfterBuild(env: Env, s: System, id: Text, serial: Text, size: u64, key: Text, d: Device, tree: Tree)
    requires id !in s.manager.images && Usable(s.kernel, d, serial, size, true) && NoneAt(s.kernel.mounts, MountDir(id))
    requires HoldsSealed(s.kernel.devices[d].content, tree, key) && ValidDigest(key)
    requires TreeKey(env.hash, tree, env.lists(tree)) == Some(key)
    ensures OpenHit(env, s, id, serial, size, key, Quiet(d))
         == (HitState(s, id, d, size, key), Answer(Ready(PreparesHit, id, None, Some(key), None)))
  {
    hide MountDir, Mounted, IsRoot, Volume, TreeKey, ParseSentinel, SentinelText, RejectHit;
    var k, os := s.kernel, Quiet(d);
    NotRoot(k.mounts, d);
    SentinelRoundTrip(key);
    var k2 := MountedAt(k, id, d, true);
    assert MountDisk(k, d, MountDir(id), true, os(2)) == (k2, true);
    NewMountLeads(k.mounts, id, d, true, SOURCE);
    NewMountLeads(k.mounts, id, d, true, SENTINEL);
    assert ReadSentinel(k2, MountDir(id), os(5)) == (k2, Some(key));
    assert HashSource(env.hash, env.lists, k2, MountDir(id), os(6)) == (k2, Some(key));
  }

  // ----- The whole cycle -----

  function BatchAsks(id: Text, d: Device, batches: seq<seq<Piece>>): (r: seq<Ask>)
    ensures |r| == |batches|
  {
    if batches == [] then []
    else
      [Ask(ImportBatch(id, Entries(batches[0]), Length32(|Data(batches[0])|)), Data(batches[0]), Quiet(d))]
      + BatchAsks(id, d, batches[1..])
  }

  predicate AllReady(replies: seq<Reply>)
  {
    forall i :: 0 <= i < |replies| ==> replies[i].Answer? && replies[i].response.Ready?
  }

  lemma BatchServed(env: Env, s: System, id: Text, d: Device, size: u64, key: Text, tree: Tree, batch: seq<Piece>)
    requires d in s.kernel.devices && ValidDigest(id) && ValidBatch(Entries(batch), |Data(batch)|)
    requires ApplyBatch(tree, Entries(batch), Data(batch), NoFaults).1.Advanced?
    ensures var after := ApplyBatch(tree, Entries(batch), Data(batch), NoFaults).0;
            Serve(env, BuildState(s, id, d, size, key, tree), BatchAsks(id, d, [batch])[0])
            == (BuildState(s, id, d, size, key, after), Answer(ReadyFor(ImportsBatch, id)))
  {
    hide ValidDigest, ApplyBatch, BuildState, TakeBatch, Data, Entries;
    FrameLimit(batch);
    TakenBatch(s, id, d, size, key, tree, batch);
  }

  lemma FrameLimit(batch: seq<Piece>)
    requires ValidBatch(Entries(batch), |Data(batch)|)
    ensures |Data(batch)| < U32_LIMIT
  {
  }

  lemma {:induction false} BatchesServed(env: Env, s: System, id: Text, d: Device, size: u64, key: Text, tree: Tree, batches: seq<seq<Piece>>)
    requires d in s.kernel.devices && ValidDigest(id) && ImportAll(tree, batches).Some?
    ensures var start, asks := BuildState(s, id, d, size, key, tree), BatchAsks(id, d, batches);
            && Run(env, start, asks) == BuildState(s, id, d, size, key, ImportAll(tree, batches).value)
            && AllReady(Replies(env, start, asks))
    decreases |batches|
  {
    hide ValidDigest, ApplyBatch, BuildState, Serve, ValidBatch, Data, Entries, Run, Replies;
    var start := BuildState(s, id, d, size, key, tree);
    if batches == [] {
      RunNothing(env, start);
    } else {
      var asks := BatchAsks(id, d, batches);
      var first, rest := BatchAsks(id, d, [batches[0]]), BatchAsks(id, d, batches[1..]);
      var after := ApplyBatch(tree, Entries(batches[0]), Data(batches[0]), NoFaults).0;
      BatchServed(env, s, id, d, size, key, tree, batches[0]);
      assert first == [first[0]] && asks == first + rest;
      RunOne(env, start, first[0]);
      RunConcat(env, start, first, rest);
      BatchesServed(env, s, id, d, size, key, after, batches[1..]);
    }
  }

  lemma AllReadyConcat(a: seq<Reply>, b: seq<Reply>)
    requires AllReady(a) && AllReady(b)
    ensures AllReady(a + b)
  {
  }

  /**
   The whole build, in an undisturbed system: preparing a device, importing any chunking and batching of any
   parents-first listing of a tree, and sealing it with the host's key answers Ready throughout, and leaves the
   image validated with exactly that tree.
   */
  lemma BuildPublishesTheTree(env: Env, s: System, build: Request, d: Device, t: Tree, host: Listing,
                              items: seq<Item>, batches: seq<seq<Piece>>)
    requires build.PrepareBuild? && Valid(build) && build.image !in s.manager.images
    requires Usable(s.kernel, d, build.serial, build.size, false) && NoneAt(s.kernel.mounts, MountDir(build.image))
    requires WellFormed(t) && Normalised(t) && Honest(t, host) && Honest(t, env.lists(t)) && Lists(t, items)
    requires TreeKey(env.hash, t, host) == Some(build.key)
    requires (forall i :: 0 <= i < |items| ==> Sendable(items[i])) && Flatten(batches) == AllPieces(items)
    requires forall i :: 0 <= i < |batches| ==> ValidBatch(Entries(batches[i]), |Data(batches[i])|)
    ensures var id := build.image;
            var asks := [Ask(build, [], Quiet(d))] + BatchAsks(id, d, batches) + [Ask(SealBuild(id, build.key), [], Quiet(d))];
            Run(env, s, asks) == SealedState(s, id, d, build.size, build.key, t) && AllReady(Replies(env, s, asks))
  {
    hide WellFormed, Normalised, Honest, Lists, Sendable, AllPieces, ValidBatch, BuildState, SealedState, BeginBuild, Seal,
      TreeKey, MountDir, Usable, NoneAt, ValidDigest, ValidToken, ValidImageSize, Run, Replies, ImportAll, BatchAsks, AllReady;
    var id, key, size := build.image, build.key, build.size;
    var prepare, imports, seal := Ask(build, [], Quiet(d)), BatchAsks(id, d, batches), Ask(SealBuild(id, key), [], Quiet(d));
    UsableFacts(s.kernel, d, build.serial, size);
    PreparedBuild(s, id, build.serial, size, key, d);
    var b0 := BuildState(s, id, d, size, key, EMPTY_SOURCE);
    ImportRebuildsTheTree(t, items, batches);
    BatchesServed(env, s, id, d, size, key, EMPTY_SOURCE, batches);
    KeyIgnoresListing(env.hash, t, host, env.lists(t));
    SealedBuild(env, s, id, d, size, key, t);
    RunOne(env, s, prepare);
    RunOne(env, BuildState(s, id, d, size, key, t), seal);
    RunConcat(env, s, [prepare], imports);
    RunConcat(env, s, [prepare] + imports, [seal]);
    var middle := Replies(env, b0, imports);
    OneReady(Serve(env, s, prepare).1);
    OneReady(Serve(env, BuildState(s, id, d, size, key, t), seal).1);
    AllReadyConcat([Serve(env, s, prepare).1], middle);
    AllReadyConcat([Serve(env, s, prepare).1] + middle, [Serve(env, BuildState(s, id, d, size, key, t), seal).1]);
  }

  lemma OneReady(reply: Reply)
    requires reply.Answer? && reply.response.Ready?
    ensures AllReady([reply])
  {
  }

  lemma UsableFacts(k: Kernel, d: Device, serial: Text, size: u64)
    requires Usable(k, d, serial, size, false)
    ensures d in k.devices && !Mounted(k.mounts, d)
  {
  }
}
