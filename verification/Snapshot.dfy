/** The byte stream that is hashed into a mount snapshot key, and the encoder that feeds it. */
module Snapshot {
  import opened Bytes
  import opened Utf8

  const KEY_DOMAIN: seq<byte> := Ascii("lsb.mount-snapshot-key") + [0]
  const ABI_VERSION: u16 := 1
  const SEMANTICS_VERSION: u16 := 1
  const HEADER: seq<byte> := KEY_DOMAIN + Be16(ABI_VERSION) + Be16(SEMANTICS_VERSION)

  const DIRECTORY_RECORD: byte := 1
  const FILE_RECORD: byte := 2
  const DIRECTORY_MODE: u32 := 0x1ED // 0o755
  const FILE_MODE: u32 := 0x1A4 // 0o644

  const SLASH: byte := 0x2F
  const BACKSLASH: byte := 0x5C
  const DOT: byte := 0x2E

  type Path = seq<byte>

  // ----- Paths -----

  /** `str::split('/')`: always at least one component. */
  function Split(p: Path): (r: seq<Path>)
    ensures |r| > 0
  {
    if p == [] then [[]]
    else
      var rest := Split(p[1..]);
      if p[0] == SLASH then [[]] + rest else [[p[0]] + rest[0]] + rest[1..]
  }

  predicate HasDoubleSlash(p: Path)
  {
    exists i :: 0 <= i < |p| - 1 && p[i] == SLASH && p[i + 1] == SLASH
  }

  predicate UnsafeComponent(c: Path)
  {
    c == [DOT] || c == [DOT, DOT] || BACKSLASH in c
  }

  /** What the encoder accepts as a record path; the root is the empty path. */
  predicate ValidRelativePath(p: Path)
  {
    && 0 !in p
    && !(p != [] && (p[0] == SLASH || p[|p| - 1] == SLASH))
    && !HasDoubleSlash(p)
    && !(exists c :: c in Split(p) && UnsafeComponent(c))
  }

  // ----- Records -----

  datatype Record = Directory(path: Path) | File(path: Path, content: seq<byte>)

  predicate ValidRecord(r: Record)
  {
    ValidRelativePath(r.path) && |r.path| < U32_LIMIT && (r.File? ==> |r.content| < U64_LIMIT)
  }

  /** Length fields have fixed width; ValidRecord says when the length fits. */
  function Length32(n: nat): (r: u32)
  {
    if n < U32_LIMIT then n else 0
  }

  function Length64(n: nat): (r: u64)
  {
    if n < U64_LIMIT then n else 0
  }

  function EncodePrefix(kind: byte, path: Path, mode: u32): (r: seq<byte>)
  {
    [kind] + Be32(Length32(|path|)) + path + Be32(mode)
  }

  function EncodeRecord(r: Record): (b: seq<byte>)
  {
    match r
    case Directory(path) => EncodePrefix(DIRECTORY_RECORD, path, DIRECTORY_MODE)
    case File(path, content) => EncodePrefix(FILE_RECORD, path, FILE_MODE) + Be64(Length64(|content|)) + content
  }

  predicate ValidRecords(rs: seq<Record>)
  {
    forall i :: 0 <= i < |rs| ==> ValidRecord(rs[i])
  }

  function EncodeRecords(rs: seq<Record>): (b: seq<byte>)
  {
    if rs == [] then [] else EncodeRecord(rs[0]) + EncodeRecords(rs[1..])
  }

  /** Everything the hasher is fed for a list of records. */
  function Stream(rs: seq<Record>): (b: seq<byte>)
  {
    HEADER + EncodeRecords(rs)
  }

  lemma {:induction false} EncodeConcat(rs: seq<Record>, qs: seq<Record>)
    ensures EncodeRecords(rs + qs) == EncodeRecords(rs) + EncodeRecords(qs)
  {
    if rs == [] {
      assert rs + qs == qs;
    } else {
      assert (rs + qs)[0] == rs[0] && (rs + qs)[1..] == rs[1..] + qs;
      EncodeConcat(rs[1..], qs);
    }
  }

  lemma StreamSnoc(rs: seq<Record>, r: Record)
    ensures Stream(rs + [r]) == Stream(rs) + EncodeRecord(r)
  {
    hide EncodeRecord, HEADER;
    EncodeConcat(rs, [r]);
    assert [r][1..] == [];
    assert EncodeRecords([r]) == EncodeRecord(r);
  }

  // ----- Reading a stream back -----

  /** A record at the front of some bytes, and what follows it. */
  function DecodeRecord(b: seq<byte>): (r: Option<(Record, seq<byte>)>)
    ensures r.Some? ==> |r.value.1| < |b|
  {
    if |b| < 9 then None
    else
      var n := FromBe32(b[1..5]);
      if |b| < 9 + n then None
      else
        var path, mode, rest := b[5..5 + n], FromBe32(b[5 + n..9 + n]), b[9 + n..];
        if !ValidRelativePath(path) then None
        else if b[0] == 1 then
          if mode == 0x1ED then Some((Directory(path), rest)) else None
        else if b[0] == 2 && mode == 0x1A4 && |rest| >= 8 then
          var len := FromBe64(rest[..8]);
          if |rest| < 8 + len then None else Some((File(path, rest[8..8 + len]), rest[8 + len..]))
        else None
  }

  function DecodeRecords(b: seq<byte>): (r: Option<seq<Record>>)
    decreases |b|
  {
    if b == [] then Some([])
    else
      match DecodeRecord(b)
      case None => None
      case Some((first, rest)) =>
        match DecodeRecords(rest)
        case None => None
        case Some(others) => Some([first] + others)
  }

  function DecodeStream(b: seq<byte>): (r: Option<seq<Record>>)
  {
    var header := Ascii("lsb.mount-snapshot-key") + [0, 0, 1, 0, 1];
    if header <= b then DecodeRecords(b[|header|..]) else None
  }

  lemma PrefixDecodes(kind: byte, path: Path, mode: u32, rest: seq<byte>)
    requires |path| < U32_LIMIT
    ensures var b := EncodePrefix(kind, path, mode) + rest;
            && |b| == 9 + |path| + |rest|
            && b[0] == kind
            && FromBe32(b[1..5]) == |path|
            && b[5..5 + |path|] == path
            && FromBe32(b[5 + |path|..9 + |path|]) == mode
            && b[9 + |path|..] == rest
  {
    var b := EncodePrefix(kind, path, mode) + rest;
    assert b[1..5] == Be32(|path|);
    assert b[5 + |path|..9 + |path|] == Be32(mode);
    Be32RoundTrip(|path|);
    Be32RoundTrip(mode);
  }

  lemma RecordRoundTrip(r: Record, rest: seq<byte>)
    requires ValidRecord(r)
    ensures DecodeRecord(EncodeRecord(r) + rest) == Some((r, rest))
  {
    match r
    case Directory(path) => PrefixDecodes(DIRECTORY_RECORD, path, DIRECTORY_MODE, rest);
    case File(path, content) => FileRoundTrip(path, content, rest);
  }

  lemma FileRoundTrip(path: Path, content: seq<byte>, rest: seq<byte>)
    requires ValidRecord(File(path, content))
    ensures DecodeRecord(EncodeRecord(File(path, content)) + rest) == Some((File(path, content), rest))
  {
    var tail := Be64(|content|) + content + rest;
    PrefixDecodes(FILE_RECORD, path, FILE_MODE, tail);
    assert EncodeRecord(File(path, content)) + rest == EncodePrefix(FILE_RECORD, path, FILE_MODE) + tail;
    assert tail[..8] == Be64(|content|);
    Be64RoundTrip(|content|);
    assert tail[8..8 + |content|] == content && tail[8 + |content|..] == rest;
  }

  lemma {:induction false} RecordsRoundTrip(rs: seq<Record>)
    requires ValidRecords(rs)
    ensures DecodeRecords(EncodeRecords(rs)) == Some(rs)
  {
    hide DecodeRecord, EncodeRecord;
    if rs != [] {
      var b, rest := EncodeRecords(rs), EncodeRecords(rs[1..]);
      RecordsRoundTrip(rs[1..]);
      RecordRoundTrip(rs[0], rest);
      assert b == EncodeRecord(rs[0]) + rest;
      assert DecodeRecord(b) == Some((rs[0], rest));
      assert rs == [rs[0]] + rs[1..];
    }
  }

  /** The encoding is uniquely decodable: the fed bytes determine the record list. */
  lemma StreamRoundTrip(rs: seq<Record>)
    requires ValidRecords(rs)
    ensures DecodeStream(Stream(rs)) == Some(rs)
  {
    assert HEADER == Ascii("lsb.mount-snapshot-key") + [0, 0, 1, 0, 1];
    assert Stream(rs)[..|HEADER|] == HEADER && Stream(rs)[|HEADER|..] == EncodeRecords(rs);
    RecordsRoundTrip(rs);
  }

  lemma StreamInjective(rs: seq<Record>, qs: seq<Record>)
    requires ValidRecords(rs) && ValidRecords(qs) && Stream(rs) == Stream(qs)
    ensures rs == qs
  {
    StreamRoundTrip(rs);
    StreamRoundTrip(qs);
  }

  // ----- The encoder's call protocol -----

  datatype EncodingError =
    | InvalidRelativePath | FileRecordAlreadyOpen | NoFileRecordOpen
    | FileContentTooLong(remaining: u64, supplied: nat) | FileContentIncomplete(remaining: u64)

  datatype Outcome = Done | Refused(error: EncodingError)

  datatype Call = AddDirectory(path: Path) | BeginFile(path: Path, length: u64) | WriteBytes(bytes: seq<byte>) | FinishFile

  /** `log` is what the hasher has been fed. */
  datatype Encoder = Encoder(log: seq<byte>, remaining: Option<u64>)

  const NEW_ENCODER := Encoder(HEADER, None)

  function Apply(e: Encoder, c: Call): (r: (Encoder, Outcome))
  {
    match c
    case AddDirectory(path) =>
      if e.remaining.Some? then (e, Refused(FileRecordAlreadyOpen))
      else if !ValidRelativePath(path) || |path| >= U32_LIMIT then (e, Refused(InvalidRelativePath))
      else (e.(log := e.log + EncodePrefix(DIRECTORY_RECORD, path, DIRECTORY_MODE)), Done)
    case BeginFile(path, length) =>
      if e.remaining.Some? then (e, Refused(FileRecordAlreadyOpen))
      else if !ValidRelativePath(path) || |path| >= U32_LIMIT then (e, Refused(InvalidRelativePath))
      else (Encoder(e.log + EncodePrefix(FILE_RECORD, path, FILE_MODE) + Be64(length), Some(length)), Done)
    case WriteBytes(bytes) =>
      if e.remaining.None? then (e, Refused(NoFileRecordOpen))
      else if |bytes| > e.remaining.value then (e, Refused(FileContentTooLong(e.remaining.value, |bytes|)))
      else (Encoder(e.log + bytes, Some(e.remaining.value - |bytes|)), Done)
    case FinishFile =>
      if e.remaining.None? then (e, Refused(NoFileRecordOpen))
      else if e.remaining.value != 0 then (e, Refused(FileContentIncomplete(e.remaining.value)))
      else (e.(remaining := None), Done)
  }

  /** `finish`: the bytes whose hash is the key. */
  function Finish(e: Encoder): (r: Option<seq<byte>>)
  {
    if e.remaining.Some? then None else Some(e.log)
  }

  function ApplyAll(e: Encoder, calls: seq<Call>): (r: Encoder)
    decreases |calls|
  {
    if calls == [] then e else ApplyAll(Apply(e, calls[0]).0, calls[1..])
  }

  /** What the calls mean: the records completed so far, and the file being written. */
  datatype Draft = Draft(done: seq<Record>, open: Option<(Path, u64, seq<byte>)>)

  function Draw(d: Draft, c: Call, accepted: bool): (r: Draft)
  {
    if !accepted then d
    else
      match c
      case AddDirectory(path) => d.(done := d.done + [Directory(path)])
      case BeginFile(path, length) => d.(open := Some((path, length, [])))
      case WriteBytes(bytes) =>
        if d.open.Some? then var (path, length, sofar) := d.open.value; d.(open := Some((path, length, sofar + bytes))) else d
      case FinishFile =>
        if d.open.Some? then Draft(d.done + [File(d.open.value.0, d.open.value.2)], None) else d
  }

  function DrawAll(e: Encoder, d: Draft, calls: seq<Call>): (r: Draft)
    decreases |calls|
  {
    if calls == [] then d
    else
      var (next, outcome) := Apply(e, calls[0]);
      DrawAll(next, Draw(d, calls[0], outcome.Done?), calls[1..])
  }

  /** The fed bytes while a file record is open. */
  function Partial(done: seq<Record>, path: Path, length: u64, sofar: seq<byte>): (b: seq<byte>)
  {
    Stream(done) + EncodePrefix(FILE_RECORD, path, FILE_MODE) + Be64(length) + sofar
  }

  ghost predicate Agrees(e: Encoder, d: Draft)
  {
    && ValidRecords(d.done)
    && (match d.open
        case None => e.remaining.None? && e.log == Stream(d.done)
        case Some((path, length, sofar)) =>
          && e.remaining.Some?
          && ValidRelativePath(path) && |path| < U32_LIMIT
          && |sofar| + e.remaining.value == length
          && e.log == Partial(d.done, path, length, sofar))
  }

  lemma PartialGrows(done: seq<Record>, path: Path, length: u64, sofar: seq<byte>, bytes: seq<byte>)
    ensures Partial(done, path, length, sofar) + bytes == Partial(done, path, length, sofar + bytes)
  {
  }

  lemma PartialCompletes(done: seq<Record>, path: Path, content: seq<byte>)
    requires |content| < U64_LIMIT
    ensures Partial(done, path, |content|, content) == Stream(done + [File(path, content)])
  {
    StreamSnoc(done, File(path, content));
    var a, b := Stream(done), EncodePrefix(FILE_RECORD, path, FILE_MODE);
    assert a + (b + Be64(|content|) + content) == a + b + Be64(|content|) + content;
  }

  lemma OpeningCallAgrees(e: Encoder, d: Draft, c: Call)
    requires Agrees(e, d) && (c.AddDirectory? || c.BeginFile?)
    ensures var (next, outcome) := Apply(e, c); Agrees(next, Draw(d, c, outcome.Done?))
  {
    if e.remaining.None? {
      if c.AddDirectory? {
        StreamSnoc(d.done, Directory(c.path));
      } else {
        var log := e.log + EncodePrefix(FILE_RECORD, c.path, FILE_MODE) + Be64(c.length);
        assert log + [] == log;
      }
    }
  }

  lemma ContentCallAgrees(e: Encoder, d: Draft, c: Call)
    requires Agrees(e, d) && (c.WriteBytes? || c.FinishFile?)
    ensures var (next, outcome) := Apply(e, c); Agrees(next, Draw(d, c, outcome.Done?))
  {
    if d.open.Some? {
      var (path, length, sofar) := d.open.value;
      if c.WriteBytes? {
        PartialGrows(d.done, path, length, sofar, c.bytes);
      } else if e.remaining == Some(0) {
        PartialCompletes(d.done, path, sofar);
        assert ValidRecord(File(path, sofar));
      }
    }
  }

  lemma CallAgrees(e: Encoder, d: Draft, c: Call)
    requires Agrees(e, d)
    ensures var (next, outcome) := Apply(e, c); Agrees(next, Draw(d, c, outcome.Done?))
  {
    if c.AddDirectory? || c.BeginFile? {
      OpeningCallAgrees(e, d, c);
    } else {
      ContentCallAgrees(e, d, c);
    }
  }

  lemma {:induction false} CallsAgree(e: Encoder, d: Draft, calls: seq<Call>)
    requires Agrees(e, d)
    ensures Agrees(ApplyAll(e, calls), DrawAll(e, d, calls))
    decreases |calls|
  {
    if calls != [] {
      CallAgrees(e, d, calls[0]);
      var (next, outcome) := Apply(e, calls[0]);
      CallsAgree(next, Draw(d, calls[0], outcome.Done?), calls[1..]);
    }
  }

  /** How a call turns out, from what the accepted calls described so far. */
  function Verdict(d: Draft, c: Call): (r: Outcome)
  {
    match d.open
    case Some((_, length, sofar)) =>
      var missing := if |sofar| <= length then length - |sofar| else 0;
      (match c
       case AddDirectory(_) => Refused(FileRecordAlreadyOpen)
       case BeginFile(_, _) => Refused(FileRecordAlreadyOpen)
       case WriteBytes(bytes) => if |bytes| <= missing then Done else Refused(FileContentTooLong(missing, |bytes|))
       case FinishFile => if missing == 0 then Done else Refused(FileContentIncomplete(missing)))
    case None =>
      (match c
       case AddDirectory(path) => if ValidRecord(Directory(path)) then Done else Refused(InvalidRelativePath)
       case BeginFile(path, _) => if ValidRecord(Directory(path)) then Done else Refused(InvalidRelativePath)
       case WriteBytes(_) => Refused(NoFileRecordOpen)
       case FinishFile => Refused(NoFileRecordOpen))
  }

  /** After any calls, the next one is accepted or refused, with its reason, as the draft says. */
  lemma CallsAreJudgedByTheDraft(calls: seq<Call>, c: Call)
    ensures Apply(ApplyAll(NEW_ENCODER, calls), c).1 == Verdict(DrawAll(NEW_ENCODER, NO_DRAFT, calls), c)
  {
    hide ValidRelativePath, EncodePrefix;
    assert Stream([]) == HEADER;
    CallsAgree(NEW_ENCODER, NO_DRAFT, calls);
  }

  const NO_DRAFT := Draft([], None)

  /**
   Whatever is called, and whichever calls are refused on the way: finishing succeeds exactly at a record
   boundary, and then the fed bytes decode to exactly the records the accepted calls described.
   */
  lemma FinishedStreamDecodes(calls: seq<Call>)
    ensures var e, d := ApplyAll(NEW_ENCODER, calls), DrawAll(NEW_ENCODER, NO_DRAFT, calls);
            && (Finish(e).Some? <==> d.open.None?)
            && (Finish(e).Some? ==> ValidRecords(d.done) && Finish(e).value == Stream(d.done) && DecodeStream(Finish(e).value) == Some(d.done))
  {
    assert Stream([]) == HEADER;
    CallsAgree(NEW_ENCODER, NO_DRAFT, calls);
    var d := DrawAll(NEW_ENCODER, NO_DRAFT, calls);
    StreamRoundTrip(d.done);
  }

  /** A refused call changes nothing, so the caller may go on. */
  lemma RefusedCallChangesNothing(e: Encoder, c: Call)
    ensures Apply(e, c).1.Refused? ==> Apply(e, c).0 == e
  {
  }

  /** However a file's content is cut into writes, the encoder ends in the same state. */
  lemma {:induction false} ChunkingDoesNotMatter(e: Encoder, chunks: seq<seq<byte>>)
    requires e.remaining.Some? && |Flatten(chunks)| <= e.remaining.value
    ensures ApplyAll(e, Writes(chunks)) == Apply(e, WriteBytes(Flatten(chunks))).0
    decreases |chunks|
  {
    hide Apply;
    if chunks == [] {
      WriteNothing(e);
    } else {
      var first, rest := chunks[0], Flatten(chunks[1..]);
      WriteTwice(e, first, rest);
      ChunkingDoesNotMatter(Apply(e, WriteBytes(first)).0, chunks[1..]);
      assert Writes(chunks)[0] == WriteBytes(first) && Writes(chunks)[1..] == Writes(chunks[1..]);
    }
  }

  lemma WriteNothing(e: Encoder)
    requires e.remaining.Some?
    ensures Apply(e, WriteBytes([])).0 == e
  {
    assert e.log + [] == e.log;
  }

  lemma WriteTwice(e: Encoder, first: seq<byte>, rest: seq<byte>)
    requires e.remaining.Some? && |first + rest| <= e.remaining.value
    ensures var next := Apply(e, WriteBytes(first)).0;
            && next.remaining == Some(e.remaining.value - |first|)
            && Apply(next, WriteBytes(rest)).0 == Apply(e, WriteBytes(first + rest)).0
  {
    assert e.log + first + rest == e.log + (first + rest);
  }

  function Writes(chunks: seq<seq<byte>>): (r: seq<Call>)
    ensures |r| == |chunks|
  {
    if chunks == [] then [] else [WriteBytes(chunks[0])] + Writes(chunks[1..])
  }

  // ----- The encoder object -----

  class KeyEncoder {
    var fed: seq<byte>
    var remaining: Option<u64>

    function Value(): (e: Encoder)
      reads this
    {
      Encoder(fed, remaining)
    }

    constructor ()
      ensures Value() == NEW_ENCODER
    {
      fed, remaining := HEADER, None;
    }

    method AddDirectory(path: Path) returns (r: Outcome)
      modifies this
      ensures (Value(), r) == Apply(old(Value()), Call.AddDirectory(path))
    {
      if remaining.Some? {
        return Refused(FileRecordAlreadyOpen);
      }
      r := EncodeRecordPrefix(DIRECTORY_RECORD, path, DIRECTORY_MODE);
    }

    method BeginFile(path: Path, length: u64) returns (r: Outcome)
      modifies this
      ensures (Value(), r) == Apply(old(Value()), Call.BeginFile(path, length))
    {
      if remaining.Some? {
        return Refused(FileRecordAlreadyOpen);
      }
      r := EncodeRecordPrefix(FILE_RECORD, path, FILE_MODE);
      if r.Done? {
        fed := fed + Be64(length);
        remaining := Some(length);
      }
    }

    method WriteFileBytes(bytes: seq<byte>) returns (r: Outcome)
      modifies this
      ensures (Value(), r) == Apply(old(Value()), WriteBytes(bytes))
    {
      if remaining.None? {
        return Refused(NoFileRecordOpen);
      }
      if |bytes| > remaining.value {
        return Refused(FileContentTooLong(remaining.value, |bytes|));
      }
      fed := fed + bytes;
      remaining := Some(remaining.value - |bytes|);
      r := Done;
    }

    method CloseFile() returns (r: Outcome)
      modifies this
      ensures (Value(), r) == Apply(old(Value()), FinishFile)
    {
      if remaining.None? {
        return Refused(NoFileRecordOpen);
      }
      if remaining.value != 0 {
        return Refused(FileContentIncomplete(remaining.value));
      }
      remaining := None;
      r := Done;
    }

    method EncodeRecordPrefix(kind: byte, path: Path, mode: u32) returns (r: Outcome)
      modifies this
      ensures remaining == old(remaining)
      ensures if ValidRelativePath(path) && |path| < U32_LIMIT
              then r == Done && fed == old(fed) + EncodePrefix(kind, path, mode)
              else r == Refused(InvalidRelativePath) && fed == old(fed)
    {
      if !ValidRelativePath(path) || |path| >= U32_LIMIT {
        return Refused(InvalidRelativePath);
      }
      fed := fed + [kind];
      fed := fed + Be32(|path|);
      fed := fed + path;
      fed := fed + Be32(mode);
      r := Done;
    }
  }
}
