/** Mount-cache requests and responses, and what their validators accept. */
module CacheProtocol {
  import opened Bytes
  import opened Frame
  import opened Snapshot
  import opened Paths
  import opened TreeHash

  type Text = seq<byte>

  datatype ImportEntry =
    | MakeDirectory(path: Path)
    | FileChunk(path: Path, offset: u64, len: u32, truncate: bool)

  datatype Request =
    | PrepareBuild(image: Text, serial: Text, size: u64, key: Text, inodes: u64)
    | PrepareHit(image: Text, serial: Text, size: u64, key: Text)
    | ImportBatch(image: Text, entries: seq<ImportEntry>, dataLen: u32)
    | SealBuild(image: Text, key: Text)
    | AbortBuild(image: Text)
    | MountOverlay(image: Text, binding: Text, target: Text)

  datatype Action = PreparesBuild | PreparesHit | ImportsBatch | SealsBuild | AbortsBuild | MountsOverlay

  datatype Reason =
    | FormatterUnavailable | FormatterFailed | DeviceNotFound | RootDevice | NonVirtioDevice | SerialMismatch
    | SizeMismatch | ReadOnlyMismatch | DeviceMounted | InvalidSourceTree | SourceKeyMismatch | MountFailed | Unsupported

  datatype Response =
    | Ready(action: Action, image: Text, binding: Option<Text>, key: Option<Text>, digest: Option<Text>)
    | Rejected(action: Action, image: Text, reason: Reason)

  function ActionOf(r: Request): (a: Action)
  {
    match r
    case PrepareBuild(_, _, _, _, _) => PreparesBuild
    case PrepareHit(_, _, _, _) => PreparesHit
    case ImportBatch(_, _, _) => ImportsBatch
    case SealBuild(_, _) => SealsBuild
    case AbortBuild(_) => AbortsBuild
    case MountOverlay(_, _, _) => MountsOverlay
  }

  // ----- Requests -----

  const MAX_BATCH_ENTRIES := 4096
  const MIN_IMAGE_SIZE := 128 * 1024 * 1024
  const MIN_INODES := 1024

  predicate ValidDigest(s: Text)
  {
    |s| == 64 && forall i :: 0 <= i < |s| ==> IsHexDigit(s[i])
  }

  predicate IsTokenByte(c: byte)
  {
    0x61 <= c <= 0x7A || 0x30 <= c <= 0x39 || c == 0x2D || c == 0x5F
  }

  predicate ValidToken(s: Text)
  {
    0 < |s| <= 64 && forall i :: 0 <= i < |s| ==> IsTokenByte(s[i])
  }

  predicate ValidImageSize(n: u64)
  {
    n >= MIN_IMAGE_SIZE && n % 512 == 0
  }

  predicate ValidImportPath(p: Path)
  {
    && p != [] && p[0] != SLASH && p[|p| - 1] != SLASH
    && !HasDoubleSlash(p) && BACKSLASH !in p && 0 !in p
    && !(exists c :: c in Split(p) && (c == [] || c == [DOT] || c == [DOT, DOT]))
  }

  predicate ValidEntry(e: ImportEntry)
  {
    && ValidImportPath(e.path)
    && (e.FileChunk? ==> (e.truncate ==> e.offset == 0) && e.offset + e.len < U64_LIMIT)
  }

  function DataBytes(es: seq<ImportEntry>): (n: nat)
  {
    if es == [] then 0 else (if es[0].FileChunk? then es[0].len else 0) + DataBytes(es[1..])
  }

  predicate ValidBatch(es: seq<ImportEntry>, dataLen: nat)
  {
    && 1 <= |es| <= MAX_BATCH_ENTRIES
    && dataLen <= MAX_FRAME_PAYLOAD
    && (forall i :: 0 <= i < |es| ==> ValidEntry(es[i]))
    && DataBytes(es) == dataLen
  }

  predicate Valid(r: Request)
  {
    && ValidDigest(r.image)
    && (match r
        case PrepareBuild(_, serial, size, key, inodes) =>
          ValidToken(serial) && ValidImageSize(size) && ValidDigest(key) && inodes >= MIN_INODES
        case PrepareHit(_, serial, size, key) => ValidToken(serial) && ValidImageSize(size) && ValidDigest(key)
        case ImportBatch(_, entries, dataLen) => ValidBatch(entries, dataLen)
        case SealBuild(_, key) => ValidDigest(key)
        case AbortBuild(_) => true
        case MountOverlay(_, binding, target) =>
          ValidToken(binding) && target != [] && target[0] == SLASH && 0 !in target)
  }

  predicate LowerHex(c: byte)
  {
    '0' as int <= c <= '9' as int || 'a' as int <= c <= 'f' as int
  }

  /** An image id or key is 64 lower-case hexadecimal digits; a serial or binding is 1 to 64 of a-z, 0-9, hyphen and underscore. */
  lemma NamesAreSpelled(s: Text)
    ensures ValidDigest(s) <==> |s| == 64 && forall i :: 0 <= i < |s| ==> LowerHex(s[i])
    ensures ValidToken(s) <==>
            1 <= |s| <= 64 && forall i :: 0 <= i < |s| ==>
              LowerHex(s[i]) || 'g' as int <= s[i] <= 'z' as int || s[i] == '-' as int || s[i] == '_' as int
  {
  }

  /** What a chunk of a file may ask for. */
  predicate ChunkAllowed(offset: nat, len: nat, truncate: bool)
  {
    offset + len <= 0xFFFF_FFFF_FFFF_FFFF && !(truncate && offset > 0)
  }

  /** The requests that are accepted, field by field. */
  lemma RequestsAreAccepted(r: Request)
    ensures Valid(r) <==>
            && ValidDigest(r.image)
            && (r.PrepareBuild? || r.PrepareHit? ==> ValidToken(r.serial) && r.size >= 0x800_0000 && exists n: nat :: r.size == 512 * n)
            && (r.PrepareBuild? || r.PrepareHit? || r.SealBuild? ==> ValidDigest(r.key))
            && (r.PrepareBuild? ==> r.inodes >= 1024)
            && (r.ImportBatch? ==>
                  && 1 <= |r.entries| <= 4096 && r.dataLen <= 0xF_FFFF && DataBytes(r.entries) == r.dataLen
                  && (forall i :: 0 <= i < |r.entries| ==> Portable(Split(r.entries[i].path)))
                  && (forall i :: 0 <= i < |r.entries| && r.entries[i].FileChunk? ==>
                        ChunkAllowed(r.entries[i].offset, r.entries[i].len, r.entries[i].truncate)))
            && (r.MountOverlay? ==> ValidToken(r.binding) && [SLASH] <= r.target && 0 !in r.target)
  {
    hide ValidDigest, ValidToken, DataBytes, ValidImportPath, Portable, Split;
    if r.PrepareBuild? || r.PrepareHit? {
      if r.size % 512 == 0 { assert r.size == 512 * (r.size / 512); }
    }
    if r.ImportBatch? {
      forall i | 0 <= i < |r.entries|
        ensures ValidImportPath(r.entries[i].path) <==> Portable(Split(r.entries[i].path))
      {
        ImportPathsAreLocations(r.entries[i].path);
      }
    }
  }

  /** Import paths are exactly the spellings of portable locations below the root. */
  lemma ImportPathsAreLocations(p: Path)
    ensures ValidImportPath(p) <==> Portable(Split(p))
  {
    RenderSplit(p);
    var l := Split(p);
    RenderedBytes(l, 0);
    RenderedBytes(l, BACKSLASH);
    if Portable(l) {
      assert Components(l);
      RenderedShape(l);
    }
    if ValidImportPath(p) {
      forall i | 0 <= i < |l|
        ensures FileName(l[i]) && BACKSLASH !in l[i]
      {
        assert l[i] in l;
      }
    }
  }

  lemma {:induction false} DataBytesConcat(a: seq<ImportEntry>, b: seq<ImportEntry>)
    ensures DataBytes(a + b) == DataBytes(a) + DataBytes(b)
  {
    if a == [] {
      assert a + b == b;
    } else {
      assert (a + b)[1..] == a[1..] + b;
      DataBytesConcat(a[1..], b);
    }
  }

  lemma DataBytesSnoc(es: seq<ImportEntry>, i: nat)
    requires i < |es|
    ensures DataBytes(es[..i + 1]) == DataBytes(es[..i]) + if es[i].FileChunk? then es[i].len else 0
  {
    assert es[..i + 1] == es[..i] + [es[i]];
    DataBytesConcat(es[..i], [es[i]]);
    assert [es[i]][1..] == [];
  }

  /** The validator's loop: no running sum of an admissible number of chunk lengths overflows 64 bits. */
  method ValidateBatch(es: seq<ImportEntry>, dataLen: u32) returns (ok: bool)
    ensures ok <==> ValidBatch(es, dataLen)
  {
    hide ValidImportPath;
    if |es| == 0 || |es| > MAX_BATCH_ENTRIES {
      return false;
    }
    if dataLen > MAX_FRAME_PAYLOAD {
      return false;
    }
    var expected: u64 := 0;
    for i := 0 to |es|
      invariant expected == DataBytes(es[..i]) <= i * U32_LIMIT
      invariant forall j :: 0 <= j < i ==> ValidEntry(es[j])
    {
      DataBytesSnoc(es, i);
      if !ValidImportPath(es[i].path) {
        return false;
      }
      if es[i].FileChunk? {
        if es[i].truncate && es[i].offset != 0 {
          return false;
        }
        if es[i].offset + es[i].len >= U64_LIMIT {
          return false;
        }
        expected := expected + es[i].len;
      }
    }
    assert es[..|es|] == es;
    return expected == dataLen;
  }

  // ----- Responses -----

  predicate ValidShape(action: Action, binding: bool, key: bool, digest: bool)
  {
    match action
    case PreparesBuild => !binding && !key && !digest
    case ImportsBatch => !binding && !key && !digest
    case AbortsBuild => !binding && !key && !digest
    case PreparesHit => !binding && key && !digest
    case SealsBuild => !binding && key && digest
    case MountsOverlay => binding && !key && !digest
  }

  predicate ValidFor(response: Response, request: Request)
  {
    && response.action == ActionOf(request)
    && response.image == request.image
    && (response.Ready? ==>
          && ValidShape(response.action, response.binding.Some?, response.key.Some?, response.digest.Some?)
          && (response.key.Some? ==> ValidDigest(response.key.value))
          && (response.digest.Some? ==> ValidDigest(response.digest.value))
          && (response.binding.Some? ==> ValidToken(response.binding.value)))
  }

  /** The one form a Ready answer to a request may have. */
  predicate Answers(response: Response, request: Request)
  {
    match request
    case PrepareBuild(id, _, _, _, _) => response == Ready(PreparesBuild, id, None, None, None)
    case ImportBatch(id, _, _) => response == Ready(ImportsBatch, id, None, None, None)
    case AbortBuild(id) => response == Ready(AbortsBuild, id, None, None, None)
    case PrepareHit(id, _, _, _) =>
      response.Ready? && response.key.Some? && ValidDigest(response.key.value)
      && response == Ready(PreparesHit, id, None, response.key, None)
    case SealBuild(id, _) =>
      response.Ready? && response.key.Some? && ValidDigest(response.key.value)
      && response.digest.Some? && ValidDigest(response.digest.value)
      && response == Ready(SealsBuild, id, None, response.key, response.digest)
    case MountOverlay(id, _, _) =>
      response.Ready? && response.binding.Some? && ValidToken(response.binding.value)
      && response == Ready(MountsOverlay, id, response.binding, None, None)
  }

  /** The validator accepts an answer in that form or a rejection of the same request, and nothing else. */
  lemma ValidForExactly(response: Response, request: Request)
    ensures ValidFor(response, request) <==>
            Answers(response, request) || (response.Rejected? && response == Rejected(ActionOf(request), request.image, response.reason))
  {
    hide ValidDigest, ValidToken;
    match request
    case PrepareBuild(_, _, _, _, _) =>
    case _ =>
  }

  lemma HexIsValidDigest(d: Digest)
    ensures ValidDigest(Hex(d))
  {
    HexIsLowercase(d);
  }
}
