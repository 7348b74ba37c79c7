/**
 The operating system as the cache manager sees it: block devices, a mount table, and calls that may fail.
 Every call gets a Choice that decides how the system treats it.
 */
module CacheKernel {
  import opened Bytes
  import opened Utf8
  import opened Paths
  import opened SourceTree
  import opened TreeHash
  import opened CacheProtocol
  import opened Import
  import opened ImportRoundTrip

  // ----- Devices and mounts -----

  type Device = nat

  /**
   The file system on a device: its source directory and its sentinel file, and the raw bytes that hold them. Where a
   write leaves its data on the device is up to the system, so `blocks` may be anything after a write.
   */
  datatype Content = Content(source: Option<Tree>, sentinel: Option<seq<byte>>, blocks: seq<byte>)

  /** `locked` is set by the manager's own read-only request: from then on nobody in the guest can write the device. */
  datatype DeviceState = DeviceState(serial: Text, size: u64, readOnly: bool, locked: bool, virtio: bool, block: bool, content: Content)

  /** Where an overlay's lower directory was when the overlay was mounted. */
  datatype Lower = SourceOf(device: Device) | Elsewhere

  /** An overlay remembers, besides its lower directory, the image it was mounted for and that image's key. */
  datatype Mount =
    | Disk(point: Location, device: Device, readOnly: bool)
    | OverlayOn(point: Location, lower: Lower, image: Text, key: Text)
    | Plain(point: Location)

  /** Mounts are in the order they were made. */
  datatype Kernel = Kernel(devices: map<Device, DeviceState>, mounts: seq<Mount>)

  /** The last mount on the way to a path is the one the path leads to. */
  function Top(ms: seq<Mount>, p: Location): (r: Option<nat>)
    ensures r.Some? ==> r.value < |ms| && ms[r.value].point <= p && forall j :: r.value < j < |ms| ==> !(ms[j].point <= p)
    ensures r.None? ==> forall j :: 0 <= j < |ms| ==> !(ms[j].point <= p)
  {
    if ms == [] then None
    else if ms[|ms| - 1].point <= p then Some(|ms| - 1)
    else Top(ms[..|ms| - 1], p)
  }

  /** A mount can be taken off only at its own point, with nothing mounted inside it since. */
  predicate CanUnmount(ms: seq<Mount>, p: Location)
  {
    match Top(ms, p)
    case None => false
    case Some(i) => ms[i].point == p && forall j :: i < j < |ms| ==> !(p <= ms[j].point)
  }

  predicate NoneAt(ms: seq<Mount>, p: Location)
  {
    forall i :: 0 <= i < |ms| ==> ms[i].point != p
  }

  predicate DiskOf(m: Mount, d: Device)
  {
    m.Disk? && m.device == d
  }

  predicate Mounted(ms: seq<Mount>, d: Device)
  {
    exists i :: 0 <= i < |ms| && DiskOf(ms[i], d)
  }

  /** A read-only mount keeps a device's content as it is. */
  predicate Frozen(ms: seq<Mount>, d: Device)
  {
    exists i :: 0 <= i < |ms| && DiskOf(ms[i], d) && ms[i].readOnly
  }

  predicate IsRoot(ms: seq<Mount>, d: Device)
  {
    exists i :: 0 <= i < |ms| && DiskOf(ms[i], d) && ms[i].point == []
  }

  // ----- System calls -----

  /**
   How the system treats one call. `world` is what others have meanwhile made of the devices that are neither frozen nor
   locked; `pick` and `trouble` decide device discovery; `stray` is what a path yields when it leads elsewhere;
   `blocks` is what a write makes of the raw bytes; `faults` decides how an import goes.
   */
  datatype Choice = Choice(ok: bool, world: Option<Device -> Content>, pick: Device, trouble: Option<Reason>,
                           stray: Option<seq<byte>>, blocks: seq<byte>, faults: nat -> Fault)

  /** One choice for each call a request makes. */
  type Script = nat -> Choice

  function Drift(k: Kernel, c: Choice): (r: Kernel)
    ensures r.mounts == k.mounts && r.devices.Keys == k.devices.Keys
  {
    if c.world.None? then k
    else
      k.(devices := map d | d in k.devices ::
           if Frozen(k.mounts, d) || k.devices[d].locked then k.devices[d] else k.devices[d].(content := c.world.value(d)))
  }

  function SetContent(k: Kernel, d: Device, content: Content): (r: Kernel)
    requires d in k.devices
  {
    k.(devices := k.devices[d := k.devices[d].(content := content)])
  }

  datatype Discovery = Found(device: Device) | NoDevice(reason: Reason)

  /** The sysfs scan: the device with the expected serial, if its facts are acceptable. */
  function Discover(k: Kernel, serial: Text, size: u64, readOnly: bool, c: Choice): (r: Discovery)
    ensures r.Found? ==>
              && r.device in k.devices
              && !Mounted(k.mounts, r.device)
              && k.devices[r.device].serial == serial && k.devices[r.device].size == size
              && k.devices[r.device].readOnly == readOnly
              && k.devices[r.device].virtio && k.devices[r.device].block && !IsRoot(k.mounts, r.device)
  {
    var d := c.pick;
    if d !in k.devices || k.devices[d].serial != serial then NoDevice(DeviceNotFound)
    else if c.trouble.Some? then NoDevice(c.trouble.value)
    else if IsRoot(k.mounts, d) then NoDevice(RootDevice)
    else if !k.devices[d].virtio || !k.devices[d].block then NoDevice(NonVirtioDevice)
    else if k.devices[d].size != size then NoDevice(SizeMismatch)
    else if k.devices[d].readOnly != readOnly then NoDevice(ReadOnlyMismatch)
    else if Mounted(k.mounts, d) then NoDevice(DeviceMounted)
    else Found(d)
  }

  /** `mkfs` leaves an empty file system. */
  function Format(k: Kernel, d: Device, c: Choice): (r: (Kernel, bool))
    requires d in k.devices
  {
    var k1 := Drift(k, c);
    if c.ok then (SetContent(k1, d, Content(None, None, c.blocks)), true) else (k1, false)
  }

  /** Removing and recreating a mount point fails on a live one. */
  function EmptyDirectory(k: Kernel, p: Location, c: Choice): (r: (Kernel, bool))
  {
    var k1 := Drift(k, c);
    var top := Top(k1.mounts, p);
    (k1, c.ok && !(top.Some? && k1.mounts[top.value].point == p))
  }

  /** A device mounted already can be mounted again only in the same mode. */
  function MountDisk(k: Kernel, d: Device, p: Location, readOnly: bool, c: Choice): (r: (Kernel, bool))
  {
    var k1 := Drift(k, c);
    if c.ok && forall i :: 0 <= i < |k1.mounts| && DiskOf(k1.mounts[i], d) ==> k1.mounts[i].readOnly == readOnly
    then (k1.(mounts := k1.mounts + [Disk(p, d, readOnly)]), true)
    else (k1, false)
  }

  function MountPlain(k: Kernel, p: Location, c: Choice): (r: (Kernel, bool))
  {
    var k1 := Drift(k, c);
    if c.ok then (k1.(mounts := k1.mounts + [Plain(p)]), true) else (k1, false)
  }

  /** The disk mounted at `dir` that the path dir/name leads to, if it leads there. */
  function Volume(ms: seq<Mount>, dir: Location, name: Name): (r: Option<Mount>)
    ensures r.Some? ==> r.value in ms && r.value.Disk? && r.value.point == dir
  {
    match Top(ms, dir + [name])
    case Some(i) => if ms[i].Disk? && ms[i].point == dir then Some(ms[i]) else None
    case None => None
  }

  /** The lower directory is looked up when the overlay is mounted. */
  function LowerOf(ms: seq<Mount>, dir: Location): (r: Lower)
  {
    match Volume(ms, dir, SOURCE)
    case Some(m) => SourceOf(m.device)
    case None => Elsewhere
  }

  function MountOverlayOn(k: Kernel, dir: Location, target: Location, image: Text, key: Text, c: Choice): (r: (Kernel, bool))
  {
    var k1 := Drift(k, c);
    if c.ok then (k1.(mounts := k1.mounts + [OverlayOn(target, LowerOf(k1.mounts, dir), image, key)]), true) else (k1, false)
  }

  function RemoveMount(ms: seq<Mount>, i: nat): (r: seq<Mount>)
    requires i < |ms|
  {
    ms[..i] + ms[i + 1..]
  }

  function Unmount(k: Kernel, p: Location, c: Choice): (r: (Kernel, bool))
  {
    var k1 := Drift(k, c);
    if c.ok && CanUnmount(k1.mounts, p)
    then (k1.(mounts := RemoveMount(k1.mounts, Top(k1.mounts, p).value)), true)
    else (k1, false)
  }

  // ----- What is done inside a mounted image -----

  const SOURCE: Name := Ascii("source")
  const SENTINEL: Name := Ascii(".lsb-mount-cache-v1")

  /** The directory walk at dir/source: the key of the tree there, or a refusal. */
  function HashSource(hash: Hash, lists: Tree -> Listing, k: Kernel, dir: Location, c: Choice): (r: (Kernel, Option<Text>))
  {
    var k1 := Drift(k, c);
    if !c.ok then (k1, None)
    else
      match Volume(k1.mounts, dir, SOURCE)
      case None => (k1, c.stray)
      case Some(m) =>
        if m.device !in k1.devices || k1.devices[m.device].content.source.None? then (k1, None)
        else
          var t := k1.devices[m.device].content.source.value;
          (k1, TreeKey(hash, t, lists(t)))
  }

  function CreateSource(k: Kernel, dir: Location, c: Choice): (r: (Kernel, bool))
  {
    var k1 := Drift(k, c);
    if !c.ok then (k1, false)
    else
      match Volume(k1.mounts, dir, SOURCE)
      case None => (k1, true)
      case Some(m) =>
        if m.readOnly || m.device !in k1.devices || k1.devices[m.device].content.source.Some? then (k1, false)
        else (SetContent(k1, m.device, k1.devices[m.device].content.(source := Some(EMPTY_SOURCE), blocks := c.blocks)), true)
  }

  /** Imports a batch into dir/source; a path that leads elsewhere leaves the devices alone. */
  function ImportInto(k: Kernel, dir: Location, es: seq<ImportEntry>, data: seq<byte>, c: Choice): (r: (Kernel, bool))
  {
    var k1 := Drift(k, c);
    match Volume(k1.mounts, dir, SOURCE)
    case None => (k1, c.ok)
    case Some(m) =>
      if m.readOnly || m.device !in k1.devices || k1.devices[m.device].content.source.None? then (k1, false)
      else
        var (after, progress) := ApplyBatch(k1.devices[m.device].content.source.value, es, data, c.faults);
        (SetContent(k1, m.device, k1.devices[m.device].content.(source := Some(after), blocks := c.blocks)), progress.Advanced?)
  }

  const SENTINEL_PREFIX: seq<byte> := Ascii("abi=1\nkey=")
  const NEWLINE: byte := 0x0A

  function SentinelText(key: Text): (b: seq<byte>)
  {
    SENTINEL_PREFIX + key + [NEWLINE]
  }

  function ParseSentinel(b: seq<byte>): (r: Option<Text>)
  {
    if |b| > 256 || !IsUtf8(b) then None
    else if |b| < |SENTINEL_PREFIX| || b[..|SENTINEL_PREFIX|] != SENTINEL_PREFIX then None
    else
      var rest := b[|SENTINEL_PREFIX|..];
      if rest == [] || rest[|rest| - 1] != NEWLINE then None else Some(rest[..|rest| - 1])
  }

  function WriteSentinel(k: Kernel, dir: Location, key: Text, c: Choice): (r: (Kernel, bool))
  {
    var k1 := Drift(k, c);
    if !c.ok then (k1, false)
    else
      match Volume(k1.mounts, dir, SENTINEL)
      case None => (k1, true)
      case Some(m) =>
        if m.readOnly || m.device !in k1.devices || k1.devices[m.device].content.sentinel.Some? then (k1, false)
        else (SetContent(k1, m.device, k1.devices[m.device].content.(sentinel := Some(SentinelText(key)), blocks := c.blocks)), true)
  }

  function ReadSentinel(k: Kernel, dir: Location, c: Choice): (r: (Kernel, Option<Text>))
  {
    var k1 := Drift(k, c);
    if !c.ok then (k1, None)
    else
      match Volume(k1.mounts, dir, SENTINEL)
      case None => (k1, c.stray)
      case Some(m) =>
        if m.device !in k1.devices || k1.devices[m.device].content.sentinel.None? then (k1, None)
        else (k1, ParseSentinel(k1.devices[m.device].content.sentinel.value))
  }

  function SetReadOnly(k: Kernel, d: Device, c: Choice): (r: (Kernel, bool))
  {
    var k1 := Drift(k, c);
    if !c.ok || d !in k1.devices then (k1, false)
    else (k1.(devices := k1.devices[d := k1.devices[d].(readOnly := true, locked := true)]), true)
  }

  /** The first `size` bytes of a device; blocks never written are zero. */
  function RawBytes(content: Content, size: nat): (r: seq<byte>)
    ensures |r| == size
    ensures forall i :: 0 <= i < size ==> r[i] == if i < |content.blocks| then content.blocks[i] else 0
  {
    seq(size, i requires 0 <= i < size => if i < |content.blocks| then content.blocks[i] else 0)
  }

  /** `hash_raw_device`. */
  function HashRaw(hash: Hash, k: Kernel, d: Device, size: u64, c: Choice): (r: (Kernel, Option<Text>))
  {
    var k1 := Drift(k, c);
    if !c.ok || d !in k1.devices then (k1, None)
    else (k1, Some(Hex(hash(RawBytes(k1.devices[d].content, size)))))
  }

  /** A call that touches neither devices nor mounts: syncing, mount propagation, plain directories. */
  function Attempt(k: Kernel, c: Choice): (r: (Kernel, bool))
  {
    (Drift(k, c), c.ok)
  }
}
