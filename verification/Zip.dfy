/** The deterministic ZIP writer, and an independent reader that follows the PKWARE APPNOTE. */
module Zip {
  import opened Bytes
  import opened Snapshot

  // ----- Little-endian records -----

  datatype Field = W16(half: u16) | W32(word: u32)

  datatype Width = Two | Four

  function Shape(fs: seq<Field>): (r: seq<Width>)
    ensures |r| == |fs|
    ensures forall i :: 0 <= i < |fs| ==> r[i] == if fs[i].W16? then Two else Four
  {
    seq(|fs|, i requires 0 <= i < |fs| => if fs[i].W16? then Two else Four)
  }

  function EncodeField(f: Field): (b: seq<byte>)
  {
    match f
    case W16(v) => Le16(v)
    case W32(v) => Le32(v)
  }

  function Encode(fs: seq<Field>): (b: seq<byte>)
  {
    if fs == [] then [] else EncodeField(fs[0]) + Encode(fs[1..])
  }

  function Decode(shape: seq<Width>, b: seq<byte>): (r: Option<(seq<Field>, seq<byte>)>)
    ensures r.Some? ==> |r.value.0| == |shape| && |r.value.1| <= |b| && (shape != [] ==> |r.value.1| < |b|)
    decreases |shape|
  {
    if shape == [] then Some(([], b))
    else
      var n := if shape[0] == Two then 2 else 4;
      if |b| < n then None
      else
        var first := if shape[0] == Two then W16(FromLe16(b[..2])) else W32(FromLe32(b[..4]));
        match Decode(shape[1..], b[n..])
        case None => None
        case Some((fs, rest)) => Some(([first] + fs, rest))
  }

  function HalfAt(fs: seq<Field>, i: nat): (v: u16)
  {
    if i < |fs| && fs[i].W16? then fs[i].half else 0
  }

  function WordAt(fs: seq<Field>, i: nat): (v: u32)
  {
    if i < |fs| && fs[i].W32? then fs[i].word else 0
  }

  lemma FieldRoundTrip(f: Field)
    ensures |EncodeField(f)| == if f.W16? then 2 else 4
    ensures match f case W16(v) => FromLe16(EncodeField(f)) == v case W32(v) => FromLe32(EncodeField(f)) == v
  {
    if f.W32? {
      Le32RoundTrip(f.word);
    }
  }

  lemma DecodeStep(shape: seq<Width>, f: Field, b: seq<byte>)
    requires shape != [] && shape[0] == if f.W16? then Two else Four
    ensures Decode(shape, EncodeField(f) + b) ==
            match Decode(shape[1..], b) case None => None case Some((fs, rest)) => Some(([f] + fs, rest))
  {
    hide EncodeField, FromLe16, FromLe32;
    FieldRoundTrip(f);
    var e, all := EncodeField(f), EncodeField(f) + b;
    assert all[..|e|] == e && all[|e|..] == b;
  }

  lemma DecodeNothing(b: seq<byte>)
    ensures Decode(Shape([]), Encode([]) + b) == Some(([], b))
  {
    assert [] + b == b;
  }

  lemma ShapeTail(fs: seq<Field>)
    requires fs != []
    ensures Shape(fs)[1..] == Shape(fs[1..])
  {
  }

  lemma {:induction false} FieldsRoundTrip(fs: seq<Field>, rest: seq<byte>)
    ensures Decode(Shape(fs), Encode(fs) + rest) == Some((fs, rest))
  {
    hide EncodeField, Decode, Shape;
    if fs == [] {
      DecodeNothing(rest);
    } else {
      var first, tail := EncodeField(fs[0]), Encode(fs[1..]);
      FieldsRoundTrip(fs[1..], rest);
      ShapeTail(fs);
      assert Encode(fs) + rest == first + (tail + rest);
      DecodeStep(Shape(fs), fs[0], tail + rest);
      assert [fs[0]] + fs[1..] == fs;
    }
  }

  // ----- The archive format -----

  const LOCAL_SIGNATURE: u32 := 0x0403_4b50
  const DESCRIPTOR_SIGNATURE: u32 := 0x0807_4b50
  const CENTRAL_SIGNATURE: u32 := 0x0201_4b50
  const END_SIGNATURE: u32 := 0x0605_4b50
  const VERSION: u16 := 20
  const FLAGS: u16 := 0x0808 // sizes in a data descriptor; UTF-8 name
  const METHOD: u16 := 8 // deflate
  const TIME: u16 := 0
  const DATE: u16 := 33 // 1980-01-01

  /** A file to archive, and what the archive says about it. */
  datatype Entry = Entry(name: seq<byte>, content: seq<byte>)

  /** How a member is stored: UTF-8 name, sizes in a data descriptor, and its MS-DOS modification time and date. */
  datatype Style = Style(utf8: bool, described: bool, time: u16, date: u16)

  /** What only the central directory says: the version that made the member, and its file attributes. */
  datatype Attributes = Attributes(madeBy: u16, inner: u16, outer: u32)

  datatype Info = Info(name: seq<byte>, style: Style, attributes: Attributes, crc: u32, packed: nat, size: nat, offset: nat)

  /** Every member is stored alike: midnight on 1 January 1980. */
  const FIXED := Style(true, true, 0, 33)
  const NO_ATTRIBUTES := Attributes(20, 0, 0)

  /** DEFLATE and CRC-32. */
  datatype Codec = Codec(deflate: seq<byte> -> seq<byte>, crc: seq<byte> -> u32)

  predicate Fits(i: Info)
  {
    |i.name| < U16_LIMIT && i.packed < U32_LIMIT && i.size < U32_LIMIT && i.offset < U32_LIMIT
  }

  function LocalFields(nameLen: u16): (fs: seq<Field>)
  {
    [W32(LOCAL_SIGNATURE), W16(VERSION), W16(FLAGS), W16(METHOD), W16(TIME), W16(DATE), W32(0), W32(0), W32(0),
     W16(nameLen), W16(0)]
  }

  function DescriptorFields(crc: u32, packed: u32, size: u32): (fs: seq<Field>)
  {
    [W32(DESCRIPTOR_SIGNATURE), W32(crc), W32(packed), W32(size)]
  }

  function CentralFields(i: Info): (fs: seq<Field>)
    requires Fits(i)
  {
    [W32(CENTRAL_SIGNATURE), W16(VERSION), W16(VERSION), W16(FLAGS), W16(METHOD), W16(TIME), W16(DATE),
     W32(i.crc), W32(i.packed), W32(i.size), W16(|i.name|), W16(0), W16(0), W16(0), W16(0), W32(0), W32(i.offset)]
  }

  function EndFields(count: u16, size: u32, offset: u32): (fs: seq<Field>)
  {
    [W32(END_SIGNATURE), W16(0), W16(0), W16(count), W16(count), W32(size), W32(offset), W16(0)]
  }

  const LOCAL_SHAPE := [Four, Two, Two, Two, Two, Two, Four, Four, Four, Two, Two]
  const DESCRIPTOR_SHAPE := [Four, Four, Four, Four]
  const CENTRAL_SHAPE := [Four, Two, Two, Two, Two, Two, Two, Four, Four, Four, Two, Two, Two, Two, Two, Four, Four]
  const END_SHAPE := [Four, Two, Two, Two, Two, Four, Four, Two]

  const LOCAL_SIZE := 30
  const DESCRIPTOR_SIZE := 16
  const END_SIZE := 22

  function Wide(shape: seq<Width>): (n: nat)
  {
    multiset(shape)[Four]
  }

  /** Two bytes for every field, and two more for the wide ones. */
  lemma {:induction false} EncodedLength(fs: seq<Field>)
    ensures |Encode(fs)| == 2 * |fs| + 2 * Wide(Shape(fs))
  {
    if fs != [] {
      FieldRoundTrip(fs[0]);
      EncodedLength(fs[1..]);
      assert Shape(fs) == [Shape(fs)[0]] + Shape(fs[1..]);
    }
  }

  lemma WideFields()
    ensures Wide(LOCAL_SHAPE) == 4 && Wide(DESCRIPTOR_SHAPE) == 4 && Wide(END_SHAPE) == 3
  {
  }

  lemma LocalShape(nameLen: u16)
    ensures Shape(LocalFields(nameLen)) == LOCAL_SHAPE && |Encode(LocalFields(nameLen))| == LOCAL_SIZE
  {
    hide Encode, Wide;
    var shape := Shape(LocalFields(nameLen));
    EncodedLength(LocalFields(nameLen));
    assert shape == LOCAL_SHAPE;
    WideFields();
  }

  lemma DescriptorShape(crc: u32, packed: u32, size: u32)
    ensures var fs := DescriptorFields(crc, packed, size);
            Shape(fs) == DESCRIPTOR_SHAPE && |Encode(fs)| == DESCRIPTOR_SIZE
  {
    hide Encode, Wide;
    EncodedLength(DescriptorFields(crc, packed, size));
    assert Shape(DescriptorFields(crc, packed, size)) == DESCRIPTOR_SHAPE;
    WideFields();
  }

  lemma CentralShape(i: Info)
    requires Fits(i)
    ensures Shape(CentralFields(i)) == CENTRAL_SHAPE
  {
    assert Shape(CentralFields(i)) == CENTRAL_SHAPE;
  }

  lemma EndShape(count: u16, size: u32, offset: u32)
    ensures var fs := EndFields(count, size, offset);
            Shape(fs) == END_SHAPE && |Encode(fs)| == END_SIZE
  {
    hide Encode, Wide;
    EncodedLength(EndFields(count, size, offset));
    assert Shape(EndFields(count, size, offset)) == END_SHAPE;
    WideFields();
  }

  // ----- Writing -----

  function InfoOf(c: Codec, e: Entry, offset: nat): (i: Info)
  {
    Info(e.name, FIXED, NO_ATTRIBUTES, c.crc(e.content), |c.deflate(e.content)|, |e.content|, offset)
  }

  function BlockSize(c: Codec, e: Entry): (n: nat)
  {
    LOCAL_SIZE + |e.name| + |c.deflate(e.content)| + DESCRIPTOR_SIZE
  }

  function Size(c: Codec, es: seq<Entry>): (n: nat)
  {
    if es == [] then 0 else Size(c, es[..|es| - 1]) + BlockSize(c, es[|es| - 1])
  }

  /** What the archive says about each entry; each starts where the ones before it end. */
  function Infos(c: Codec, es: seq<Entry>): (r: seq<Info>)
    ensures |r| == |es|
    ensures forall k :: 0 <= k < |es| ==> r[k] == InfoOf(c, es[k], Size(c, es[..k]))
  {
    seq(|es|, k requires 0 <= k < |es| => InfoOf(c, es[k], Size(c, es[..k])))
  }

  predicate AllFit(infos: seq<Info>)
  {
    forall k :: 0 <= k < |infos| ==> Fits(infos[k])
  }

  function Block(i: Info, packed: seq<byte>): (b: seq<byte>)
    requires Fits(i)
  {
    Encode(LocalFields(|i.name|)) + i.name + packed + Encode(DescriptorFields(i.crc, i.packed, i.size))
  }

  function Blocks(c: Codec, es: seq<Entry>): (r: seq<seq<byte>>)
    requires AllFit(Infos(c, es))
    ensures |r| == |es|
    ensures forall k :: 0 <= k < |es| ==> r[k] == Block(Infos(c, es)[k], c.deflate(es[k].content))
  {
    seq(|es|, k requires 0 <= k < |es| => Block(Infos(c, es)[k], c.deflate(es[k].content)))
  }

  function Central(i: Info): (b: seq<byte>)
    requires Fits(i)
  {
    Encode(CentralFields(i)) + i.name
  }

  function Centrals(infos: seq<Info>): (r: seq<seq<byte>>)
    requires AllFit(infos)
    ensures |r| == |infos|
    ensures forall k :: 0 <= k < |infos| ==> r[k] == Central(infos[k])
  {
    seq(|infos|, k requires 0 <= k < |infos| => Central(infos[k]))
  }

  const COLON: byte := 0x3A

  /** `archive_path`: path components skip empty segments and inner dots. */
  predicate ArchivePath(name: seq<byte>)
  {
    && name != [] && name[0] != SLASH
    && Split(name)[0] != [DOT]
    && (exists s :: s in Split(name) && s != [] && s != [DOT])
    && !(exists s :: s in Split(name) && (s == [DOT, DOT] || COLON in s || BACKSLASH in s || 0 in s))
  }

  function NameOf(e: Entry): (n: seq<byte>)
  {
    e.name
  }

  /** Everything the writer checks on the way, for entries already in order. */
  predicate Writable(c: Codec, es: seq<Entry>)
  {
    && 1 <= |es| < U16_LIMIT
    && (forall k :: 0 <= k < |es| ==> ArchivePath(es[k].name))
    && AllFit(Infos(c, es))
    && |Flatten(Blocks(c, es))| < U32_LIMIT
    && |Flatten(Centrals(Infos(c, es)))| < U32_LIMIT
  }

  function Archive(c: Codec, es: seq<Entry>): (z: seq<byte>)
    requires Writable(c, es)
  {
    var blocks, centrals := Flatten(Blocks(c, es)), Flatten(Centrals(Infos(c, es)));
    blocks + centrals + Encode(EndFields(|es|, |centrals|, |blocks|))
  }

  /** `write_deterministic_zip`: sorts by name and writes, or fails. */
  function WriteZip(c: Codec, es: seq<Entry>): (z: Option<seq<byte>>)
  {
    var sorted := SortBy(NameOf, es);
    if Writable(c, sorted) then Some(Archive(c, sorted)) else None
  }

  // ----- Reading -----

  /** A member found by the reader, with the extent of the archive it occupies. */
  datatype Member = Member(name: seq<byte>, style: Style, attributes: Attributes, crc: u32, size: u32, packed: seq<byte>, start: nat, end: nat)

  /** A bit of the general purpose flags, section 4.4.4, by its weight. */
  predicate Bit(flags: u16, weight: nat)
    requires weight > 0
  {
    flags / weight % 2 == 1
  }

  /** Bit 11 says that the name is UTF-8, bit 3 that the sizes come in a data descriptor behind the file data. */
  function StyleOf(flags: u16, time: u16, date: u16): (s: Style)
  {
    Style(Bit(flags, 2048), Bit(flags, 8), time, date)
  }

  /** Version 2.0 or less is needed to extract (section 4.4.3), bit 0 says not encrypted, and method 8 is Deflate (4.4.5). */
  predicate Supported(version: u16, flags: u16, storage: u16)
  {
    version <= 20 && !Bit(flags, 1) && storage == 8
  }

  /** Central directory header, section 4.3.12: fields, name, extra field, comment; the member is on disk 0. */
  function ReadCentral(b: seq<byte>): (r: Option<(Info, seq<byte>)>)
    ensures r.Some? ==> |r.value.1| < |b|
  {
    match Decode(CENTRAL_SHAPE, b)
    case None => None
    case Some((fs, rest)) =>
      var nameLen, extraLen, commentLen := HalfAt(fs, 10), HalfAt(fs, 11), HalfAt(fs, 12);
      if WordAt(fs, 0) != 0x0201_4b50 || HalfAt(fs, 13) != 0 then None
      else if !Supported(HalfAt(fs, 2), HalfAt(fs, 3), HalfAt(fs, 4)) then None
      else if |rest| < nameLen + extraLen + commentLen then None
      else
        Some((Info(rest[..nameLen], StyleOf(HalfAt(fs, 3), HalfAt(fs, 5), HalfAt(fs, 6)),
                   Attributes(HalfAt(fs, 1), HalfAt(fs, 14), WordAt(fs, 15)), WordAt(fs, 7), WordAt(fs, 8), WordAt(fs, 9), WordAt(fs, 16)),
              rest[nameLen + extraLen + commentLen..]))
  }

  function ReadCentrals(b: seq<byte>, count: nat): (r: Option<seq<Info>>)
    decreases count
  {
    if count == 0 then if b == [] then Some([]) else None
    else
      match ReadCentral(b)
      case None => None
      case Some((first, rest)) =>
        match ReadCentrals(rest, count - 1)
        case None => None
        case Some(others) => Some([first] + others)
  }

  /**
   What follows the file data, if the sizes and the checksum of the member are those of its central header; with a data
   descriptor those of the local header are zero (section 4.4.4).
   */
  function ReadTrailer(local: seq<Field>, i: Info, b: seq<byte>): (r: Option<seq<byte>>)
  {
    if !i.style.described then
      if WordAt(local, 6) == i.crc && WordAt(local, 7) == i.packed && WordAt(local, 8) == i.size then Some(b) else None
    else if WordAt(local, 6) != 0 || WordAt(local, 7) != 0 || WordAt(local, 8) != 0 then None
    else
      match Decode(DESCRIPTOR_SHAPE, b)
      case None => None
      case Some((fs, after)) =>
        if WordAt(fs, 0) != 0x0807_4b50 || WordAt(fs, 1) != i.crc then None
        else if WordAt(fs, 2) != i.packed || WordAt(fs, 3) != i.size then None
        else Some(after)
  }

  /** Local file header, section 4.3.7; file data, 4.3.8; data descriptor, 4.3.9. */
  function ReadMember(z: seq<byte>, i: Info): (r: Option<Member>)
  {
    if i.offset > |z| then None
    else
      match Decode(LOCAL_SHAPE, z[i.offset..])
      case None => None
      case Some((fs, rest)) =>
        var nameLen, extraLen := HalfAt(fs, 9), HalfAt(fs, 10);
        if WordAt(fs, 0) != 0x0403_4b50 || !Supported(HalfAt(fs, 1), HalfAt(fs, 2), HalfAt(fs, 3)) then None
        else if StyleOf(HalfAt(fs, 2), HalfAt(fs, 4), HalfAt(fs, 5)) != i.style then None
        else if |rest| < nameLen + extraLen + i.packed || rest[..nameLen] != i.name then None
        else
          var data := rest[nameLen + extraLen..];
          match ReadTrailer(fs, i, data[i.packed..])
          case None => None
          case Some(after) =>
            if i.size >= U32_LIMIT then None
            else Some(Member(i.name, i.style, i.attributes, i.crc, i.size, data[..i.packed], i.offset, |z| - |after|))
  }

  function ReadMembers(z: seq<byte>, infos: seq<Info>): (r: Option<seq<Member>>)
  {
    if infos == [] then Some([])
    else
      match ReadMember(z, infos[0])
      case None => None
      case Some(first) =>
        match ReadMembers(z, infos[1..])
        case None => None
        case Some(others) => Some([first] + others)
  }

  /** End of central directory record, section 4.3.16, of an archive on one disk (number 0) without a comment. */
  function ReadZip(z: seq<byte>): (r: Option<seq<Member>>)
  {
    if |z| < END_SIZE then None
    else
      match Decode(END_SHAPE, z[|z| - END_SIZE..])
      case None => None
      case Some((fs, rest)) =>
        var count, size, offset := HalfAt(fs, 4), WordAt(fs, 5), WordAt(fs, 6);
        if WordAt(fs, 0) != 0x0605_4b50 || HalfAt(fs, 7) != 0 then None
        else if HalfAt(fs, 1) != 0 || HalfAt(fs, 2) != 0 || HalfAt(fs, 3) != count then None
        else if offset + size > |z| - END_SIZE then None
        else
          match ReadCentrals(z[offset..offset + size], count)
          case None => None
          case Some(infos) => ReadMembers(z, infos)
  }

  // ----- The reader recovers what was written -----

  lemma BlockLength(c: Codec, e: Entry, i: Info)
    requires Fits(i) && i == InfoOf(c, e, i.offset)
    ensures |Block(i, c.deflate(e.content))| == BlockSize(c, e)
  {
    hide Encode;
    LocalShape(|i.name|);
    DescriptorShape(i.crc, i.packed, i.size);
  }

  lemma PrefixInfos(c: Codec, es: seq<Entry>, k: nat)
    requires k <= |es|
    ensures Infos(c, es[..k]) == Infos(c, es)[..k]
  {
    hide Size;
    forall j | 0 <= j < k
      ensures Infos(c, es[..k])[j] == Infos(c, es)[..k][j]
    {
      assert es[..k][..j] == es[..j];
    }
  }

  lemma PrefixBlocks(c: Codec, es: seq<Entry>, k: nat)
    requires k <= |es| && AllFit(Infos(c, es))
    ensures AllFit(Infos(c, es[..k])) && Blocks(c, es[..k]) == Blocks(c, es)[..k]
  {
    hide Size, Encode;
    PrefixInfos(c, es, k);
  }

  lemma BlocksSnoc(c: Codec, es: seq<Entry>)
    requires es != [] && AllFit(Infos(c, es))
    ensures var init, last := es[..|es| - 1], Blocks(c, es)[|es| - 1];
            AllFit(Infos(c, init)) && Blocks(c, es) == Blocks(c, init) + [last] && |last| == BlockSize(c, es[|es| - 1])
  {
    hide Block, Encode, Size, BlockSize;
    var n := |es| - 1;
    PrefixBlocks(c, es, n);
    BlockLength(c, es[n], Infos(c, es)[n]);
  }

  /** The recorded offset of an entry is the length of the blocks before it. */
  lemma {:induction false} OffsetsAreLengths(c: Codec, es: seq<Entry>)
    requires AllFit(Infos(c, es))
    ensures |Flatten(Blocks(c, es))| == Size(c, es)
    decreases |es|
  {
    hide Blocks, Block, Infos, BlockSize, Fits;
    if es == [] {
      NoBlocks(c);
    } else {
      var init := es[..|es| - 1];
      BlocksSnoc(c, es);
      OffsetsAreLengths(c, init);
      FlattenSnoc(Blocks(c, init), Blocks(c, es)[|es| - 1]);
    }
  }

  lemma NoBlocks(c: Codec)
    ensures Infos(c, []) == [] && Blocks(c, []) == []
  {
  }

  lemma FlattenAt<T>(ss: seq<seq<T>>, k: nat)
    requires k < |ss|
    ensures Flatten(ss) == Flatten(ss[..k]) + ss[k] + Flatten(ss[k + 1..])
  {
    assert ss == ss[..k] + ss[k..];
    FlattenConcat(ss[..k], ss[k..]);
    assert ss[k..][0] == ss[k] && ss[k..][1..] == ss[k + 1..];
    assert Flatten(ss[k..]) == ss[k] + Flatten(ss[k + 1..]);
  }

  lemma WrittenStyle()
    ensures StyleOf(FLAGS, TIME, DATE) == FIXED && Supported(VERSION, FLAGS, METHOD)
  {
  }

  lemma CentralReadBack(i: Info, rest: seq<byte>)
    requires Fits(i) && i.style == FIXED && i.attributes == NO_ATTRIBUTES
    ensures ReadCentral(Central(i) + rest) == Some((i, rest))
  {
    hide Encode, Decode, StyleOf, Supported;
    WrittenStyle();
    CentralShape(i);
    var fs := CentralFields(i);
    FieldsRoundTrip(fs, i.name + rest);
    assert Central(i) + rest == Encode(fs) + (i.name + rest);
    assert (i.name + rest)[..|i.name|] == i.name && (i.name + rest)[|i.name|..] == rest;
  }

  lemma {:induction false} CentralsReadBack(infos: seq<Info>)
    requires AllFit(infos) && forall k :: 0 <= k < |infos| ==> infos[k].style == FIXED && infos[k].attributes == NO_ATTRIBUTES
    ensures ReadCentrals(Flatten(Centrals(infos)), |infos|) == Some(infos)
  {
    hide Central, ReadCentral, Fits;
    if infos == [] {
      assert Centrals(infos) == [];
    } else {
      var all := Centrals(infos);
      assert all[1..] == Centrals(infos[1..]);
      CentralReadBack(infos[0], Flatten(all[1..]));
      CentralsReadBack(infos[1..]);
      assert [infos[0]] + infos[1..] == infos;
    }
  }

  function MemberOf(c: Codec, e: Entry, i: Info): (m: Member)
    requires Fits(i)
  {
    Member(e.name, Style(true, true, 0, 33), Attributes(20, 0, 0), c.crc(e.content), i.size, c.deflate(e.content), i.offset, i.offset + BlockSize(c, e))
  }

  lemma TrailerReadBack(nameLen: u16, i: Info, after: seq<byte>)
    requires Fits(i) && i.style == FIXED
    ensures ReadTrailer(LocalFields(nameLen), i, Encode(DescriptorFields(i.crc, i.packed, i.size)) + after) == Some(after)
  {
    hide Encode, Decode;
    DescriptorShape(i.crc, i.packed, i.size);
    FieldsRoundTrip(DescriptorFields(i.crc, i.packed, i.size), after);
  }

  lemma BlockReadBack(c: Codec, e: Entry, i: Info, before: seq<byte>, after: seq<byte>)
    requires Fits(i) && i == InfoOf(c, e, |before|)
    ensures ReadMember(before + Block(i, c.deflate(e.content)) + after, i) == Some(MemberOf(c, e, i))
  {
    hide Encode, Decode, StyleOf, Supported, ReadTrailer, DescriptorFields;
    WrittenStyle();
    var packed := c.deflate(e.content);
    var local, tail := LocalFields(|i.name|), DescriptorFields(i.crc, i.packed, i.size);
    var z := before + Block(i, packed) + after;
    var data := packed + Encode(tail) + after;
    var rest := i.name + data;
    LocalShape(|i.name|);
    DescriptorShape(i.crc, i.packed, i.size);
    BlockLength(c, e, i);
    assert z[i.offset..] == Encode(local) + rest;
    FieldsRoundTrip(local, rest);
    assert rest[..|i.name|] == i.name && rest[|i.name|..] == data;
    assert data[..i.packed] == packed && data[i.packed..] == Encode(tail) + after;
    TrailerReadBack(|i.name|, i, after);
  }

  function Members(c: Codec, es: seq<Entry>): (r: seq<Member>)
    requires AllFit(Infos(c, es))
    ensures |r| == |es|
    ensures forall k :: 0 <= k < |es| ==> r[k] == MemberOf(c, es[k], Infos(c, es)[k])
  {
    seq(|es|, k requires 0 <= k < |es| => MemberOf(c, es[k], Infos(c, es)[k]))
  }

  lemma MemberReadBack(c: Codec, es: seq<Entry>, rest: seq<byte>, k: nat)
    requires AllFit(Infos(c, es)) && k < |es|
    ensures ReadMember(Flatten(Blocks(c, es)) + rest, Infos(c, es)[k]) == Some(Members(c, es)[k])
  {
    hide Block, ReadMember, Size, Fits, Encode;
    var blocks := Blocks(c, es);
    var before, after := Flatten(blocks[..k]), Flatten(blocks[k + 1..]) + rest;
    FlattenAt(blocks, k);
    PrefixBlocks(c, es, k);
    OffsetsAreLengths(c, es[..k]);
    assert Flatten(blocks) + rest == before + blocks[k] + after;
    BlockReadBack(c, es[k], Infos(c, es)[k], before, after);
  }

  lemma {:induction false} MembersReadBack(c: Codec, es: seq<Entry>, z: seq<byte>, k: nat)
    requires AllFit(Infos(c, es)) && k <= |es|
    requires forall j :: 0 <= j < |es| ==> ReadMember(z, Infos(c, es)[j]) == Some(Members(c, es)[j])
    ensures ReadMembers(z, Infos(c, es)[k..]) == Some(Members(c, es)[k..])
    decreases |es| - k
  {
    hide ReadMember, Size, Fits;
    var infos, members := Infos(c, es), Members(c, es);
    if k < |es| {
      MembersReadBack(c, es, z, k + 1);
      assert infos[k..][0] == infos[k] && infos[k..][1..] == infos[k + 1..];
      assert members[k..] == [members[k]] + members[k + 1..];
    } else {
      assert infos[k..] == [] && members[k..] == [];
    }
  }

  lemma EndReadBack(blocks: seq<byte>, centrals: seq<byte>, count: u16)
    requires |blocks| < U32_LIMIT && |centrals| < U32_LIMIT
    ensures var fs := EndFields(count, |centrals|, |blocks|);
            var z := blocks + centrals + Encode(fs);
            && |z| == |blocks| + |centrals| + END_SIZE
            && Decode(END_SHAPE, z[|z| - END_SIZE..]) == Some((fs, []))
            && z[|blocks|..|blocks| + |centrals|] == centrals
            && z == blocks + (centrals + Encode(fs))
  {
    hide Encode, Decode;
    var fs := EndFields(count, |centrals|, |blocks|);
    var z := blocks + centrals + Encode(fs);
    EndShape(count, |centrals|, |blocks|);
    FieldsRoundTrip(fs, []);
    assert z[|z| - END_SIZE..] == Encode(fs) == Encode(fs) + [];
  }

  /** The reader finds exactly the entries, in name order, with their checksums, sizes and compressed bytes. */
  lemma ArchiveReadBack(c: Codec, es: seq<Entry>)
    requires Writable(c, es)
    ensures ReadZip(Archive(c, es)) == Some(Members(c, es))
  {
    hide Encode, Decode, ReadCentrals, ReadMember, ReadMembers, ArchivePath, Fits, Blocks, Centrals, Flatten, Infos, Members;
    var blocks, infos := Flatten(Blocks(c, es)), Infos(c, es);
    var centrals := Flatten(Centrals(infos));
    EndReadBack(blocks, centrals, |es|);
    CentralsReadBack(infos);
    var z, rest := Archive(c, es), centrals + Encode(EndFields(|es|, |centrals|, |blocks|));
    forall j | 0 <= j < |es|
      ensures ReadMember(z, infos[j]) == Some(Members(c, es)[j])
    {
      MemberReadBack(c, es, rest, j);
    }
    MembersReadBack(c, es, z, 0);
    assert infos[0..] == infos && Members(c, es)[0..] == Members(c, es);
  }

  lemma BlocksAreNotEmpty(c: Codec, e: Entry)
    ensures BlockSize(c, e) > 0
  {
  }

  lemma NextOffset(c: Codec, es: seq<Entry>, k: nat)
    requires k < |es|
    ensures Size(c, es[..k + 1]) == Size(c, es[..k]) + BlockSize(c, es[k])
  {
    hide BlockSize;
    assert es[..k + 1][..k] == es[..k] && es[..k + 1][k] == es[k];
  }

  /** The members lie one after the other, from the start of the archive to its central directory. */
  lemma MembersTile(c: Codec, es: seq<Entry>, k: nat)
    requires AllFit(Infos(c, es)) && k < |es|
    ensures var ms := Members(c, es);
            && ms[k].start < ms[k].end
            && ms[0].start == 0
            && ms[k].end == if k + 1 < |es| then ms[k + 1].start else |Flatten(Blocks(c, es))|
  {
    hide Blocks, BlockSize, Size, Infos, Members, AllFit;
    NextOffset(c, es, k);
    NoOffset(c, es);
    assert es[..|es|] == es;
    OffsetsAreLengths(c, es);
    BlocksAreNotEmpty(c, es[k]);
  }

  lemma NoOffset(c: Codec, es: seq<Entry>)
    ensures Size(c, es[..0]) == 0
  {
  }

  /** Reading the archive gives every entry back, in the order of the names. */
  lemma ZipRoundTrip(c: Codec, es: seq<Entry>)
    requires WriteZip(c, es).Some?
    ensures var sorted := SortBy(NameOf, es);
            && multiset(sorted) == multiset(es) && Sorted(NameOf, sorted)
            && AllFit(Infos(c, sorted))
            && ReadZip(WriteZip(c, es).value) == Some(Members(c, sorted))
  {
    hide Writable, Archive;
    SortByCorrect(NameOf, es);
    WritableFits(c, SortBy(NameOf, es));
    ArchiveReadBack(c, SortBy(NameOf, es));
  }

  lemma WritableFits(c: Codec, es: seq<Entry>)
    requires Writable(c, es)
    ensures AllFit(Infos(c, es))
  {
  }

  /** Whatever order distinctly named entries come in, the archive is the same. */
  lemma ZipIsDeterministic(c: Codec, es: seq<Entry>, fs: seq<Entry>)
    requires multiset(es) == multiset(fs) && DistinctKeys(NameOf, es)
    ensures WriteZip(c, es) == WriteZip(c, fs)
  {
    hide Writable, Archive;
    SortIsCanonical(NameOf, es, fs);
  }
}
