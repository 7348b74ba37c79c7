/** Exactly which files can be archived. */
module ZipLimits {
  import opened Bytes
  import opened Snapshot
  import opened Paths
  import opened Zip

  // ----- Names -----

  /** A name is spelled by its segments: it starts with a proper one, and none steps up or holds a colon, backslash or zero byte. */
  lemma ArchiveNames(segments: seq<Name>)
    requires segments != [] && forall i :: 0 <= i < |segments| ==> SLASH !in segments[i]
    ensures ArchivePath(Render(segments)) <==>
            && segments[0] != [] && segments[0] != [DOT]
            && forall s :: s in segments ==> s != [DOT, DOT] && ':' as int !in s && '\\' as int !in s && 0 !in s
  {
    hide Split;
    SplitRender(segments);
    assert segments[0] in segments;
    if segments[0] == [] {
      assert |segments| > 1 ==> Render(segments)[0] == SLASH;
    } else {
      assert Render(segments)[0] == segments[0][0];
      assert segments[0][0] in segments[0];
    }
  }

  // ----- Sizes -----

  /** The local part of the archive: 30 bytes of header and 16 of descriptor for each entry, its name and its compressed file. */
  function LocalBytes(c: Codec, es: seq<Entry>): (n: nat)
  {
    if es == [] then 0 else 46 + |es[0].name| + |c.deflate(es[0].content)| + LocalBytes(c, es[1..])
  }

  /** The central directory: 46 bytes and the name for each entry. */
  function CentralBytes(es: seq<Entry>): (n: nat)
  {
    if es == [] then 0 else 46 + |es[0].name| + CentralBytes(es[1..])
  }

  lemma {:induction false} InsertedBytes(c: Codec, e: Entry, es: seq<Entry>)
    ensures LocalBytes(c, Insert(NameOf, e, es)) == LocalBytes(c, [e]) + LocalBytes(c, es)
    ensures CentralBytes(Insert(NameOf, e, es)) == CentralBytes([e]) + CentralBytes(es)
  {
    hide Leq;
    if es == [] || Leq(NameOf(e), NameOf(es[0])) {
      assert ([e] + es)[1..] == es;
    } else {
      InsertedBytes(c, e, es[1..]);
      var rest := Insert(NameOf, e, es[1..]);
      assert ([es[0]] + rest)[1..] == rest;
    }
  }

  /** Sorting does not change how much there is to write. */
  lemma {:induction false} SortedBytes(c: Codec, es: seq<Entry>)
    ensures LocalBytes(c, SortBy(NameOf, es)) == LocalBytes(c, es) && CentralBytes(SortBy(NameOf, es)) == CentralBytes(es)
  {
    hide Insert;
    if es != [] {
      SortedBytes(c, es[1..]);
      InsertedBytes(c, es[0], SortBy(NameOf, es[1..]));
      assert [es[0]][1..] == [];
    }
  }

  lemma {:induction false} LocalSnoc(c: Codec, es: seq<Entry>, e: Entry)
    ensures LocalBytes(c, es + [e]) == LocalBytes(c, es) + 46 + |e.name| + |c.deflate(e.content)|
  {
    if es == [] {
      assert es + [e] == [e] && [e][1..] == [];
    } else {
      assert (es + [e])[0] == es[0] && (es + [e])[1..] == es[1..] + [e];
      LocalSnoc(c, es[1..], e);
    }
  }

  lemma {:induction false} SizeIsLocalBytes(c: Codec, es: seq<Entry>)
    ensures Size(c, es) == LocalBytes(c, es)
    decreases |es|
  {
    if es != [] {
      var n := |es| - 1;
      SizeIsLocalBytes(c, es[..n]);
      LocalSnoc(c, es[..n], es[n]);
      assert es[..n] + [es[n]] == es;
    }
  }

  lemma {:induction false} SizeGrows(c: Codec, es: seq<Entry>, k: nat)
    requires k <= |es|
    ensures Size(c, es[..k]) <= Size(c, es)
    decreases |es|
  {
    hide BlockSize;
    if k < |es| {
      var n := |es| - 1;
      SizeGrows(c, es[..n], k);
      assert es[..n][..k] == es[..k];
    } else {
      assert es[..k] == es;
    }
  }

  lemma CentralLength(i: Info)
    requires Fits(i)
    ensures |Central(i)| == 46 + |i.name|
  {
    hide Encode, Wide;
    CentralShape(i);
    EncodedLength(CentralFields(i));
    WideCentral();
  }

  lemma WideCentral()
    ensures Wide(CENTRAL_SHAPE) == 6
  {
  }

  lemma {:induction false} CentralsLength(infos: seq<Info>, es: seq<Entry>)
    requires |infos| == |es| && AllFit(infos) && forall k :: 0 <= k < |es| ==> infos[k].name == es[k].name
    ensures |Flatten(Centrals(infos))| == CentralBytes(es)
  {
    hide Central, Fits;
    if infos == [] {
      assert Centrals(infos) == [];
    } else {
      CentralLength(infos[0]);
      CentralsLength(infos[1..], es[1..]);
      assert Centrals(infos)[1..] == Centrals(infos[1..]);
    }
  }

  // ----- The exact condition -----

  predicate Archivable(c: Codec, e: Entry)
  {
    ArchivePath(e.name) && |e.name| <= 0xFFFF && |c.deflate(e.content)| <= 0xFFFF_FFFF && |e.content| <= 0xFFFF_FFFF
  }

  lemma InfosFit(c: Codec, es: seq<Entry>)
    requires LocalBytes(c, es) <= 0xFFFF_FFFF && forall e :: e in es ==> Archivable(c, e)
    ensures AllFit(Infos(c, es))
  {
    hide ArchivePath, Size;
    SizeIsLocalBytes(c, es);
    forall k | 0 <= k < |es|
      ensures Fits(Infos(c, es)[k])
    {
      SizeGrows(c, es, k);
      assert es[k] in es;
    }
  }

  predicate WithinLimits(c: Codec, es: seq<Entry>)
  {
    && 1 <= |es| <= 0xFFFF && (forall e :: e in es ==> Archivable(c, e))
    && LocalBytes(c, es) <= 0xFFFF_FFFF && CentralBytes(es) <= 0xFFFF_FFFF
  }

  lemma PartsAreMeasured(c: Codec, es: seq<Entry>)
    requires AllFit(Infos(c, es))
    ensures |Flatten(Blocks(c, es))| == LocalBytes(c, es) && |Flatten(Centrals(Infos(c, es)))| == CentralBytes(es)
  {
    hide Blocks, Centrals, Fits, Size, BlockSize;
    SizeIsLocalBytes(c, es);
    OffsetsAreLengths(c, es);
    CentralsLength(Infos(c, es), es);
  }

  lemma NamesAndFits(c: Codec, es: seq<Entry>, e: Entry)
    requires (forall k :: 0 <= k < |es| ==> ArchivePath(es[k].name)) && AllFit(Infos(c, es)) && e in es
    ensures Archivable(c, e)
  {
    hide ArchivePath, Size;
    var k :| 0 <= k < |es| && es[k] == e;
    assert Fits(Infos(c, es)[k]);
  }

  lemma WritableIsWithinLimits(c: Codec, es: seq<Entry>)
    requires Writable(c, es)
    ensures WithinLimits(c, es)
  {
    hide ArchivePath, Blocks, Centrals, Infos, LocalBytes, CentralBytes, Archivable, AllFit;
    PartsAreMeasured(c, es);
    forall e | e in es
      ensures Archivable(c, e)
    {
      NamesAndFits(c, es, e);
    }
  }

  lemma WithinLimitsIsWritable(c: Codec, es: seq<Entry>)
    requires WithinLimits(c, es)
    ensures Writable(c, es)
  {
    hide ArchivePath, Blocks, Centrals, Infos, LocalBytes, CentralBytes, AllFit;
    InfosFit(c, es);
    PartsAreMeasured(c, es);
    forall k | 0 <= k < |es|
      ensures ArchivePath(es[k].name)
    {
      assert es[k] in es;
    }
  }

  /** An archive is written exactly if there are 1 to 65535 files, each has a proper name and fits, and both parts stay below 4 GiB. */
  lemma ZipIsWrittenExactly(c: Codec, es: seq<Entry>)
    ensures WriteZip(c, es).Some? <==> WithinLimits(c, es)
  {
    hide Writable, Archive, Archivable, LocalBytes, CentralBytes, SortBy;
    var sorted := SortBy(NameOf, es);
    SortByCorrect(NameOf, es);
    SortedBytes(c, es);
    if Writable(c, sorted) {
      WritableIsWithinLimits(c, sorted);
    }
    if WithinLimits(c, sorted) {
      WithinLimitsIsWritable(c, sorted);
    }
    assert forall e :: e in sorted <==> e in multiset(sorted);
    assert forall e :: e in es <==> e in multiset(es);
  }
}
