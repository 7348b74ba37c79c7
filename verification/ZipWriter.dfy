/** The ZIP writer's loops, proved against the archive they should produce. */
module ZipWriter {
  import opened Bytes
  import opened Zip

  const READ_SIZE := 64 * 1024

  lemma NextInfo(c: Codec, es: seq<Entry>, k: nat)
    requires k < |es|
    ensures Infos(c, es[..k + 1]) == Infos(c, es[..k]) + [InfoOf(c, es[k], Size(c, es[..k]))]
    ensures Infos(c, es)[k] == InfoOf(c, es[k], Size(c, es[..k]))
  {
    hide Size;
    PrefixInfos(c, es[..k + 1], k);
    assert es[..k + 1][..k] == es[..k] && es[..k + 1][k] == es[k];
  }

  lemma NextBlock(c: Codec, es: seq<Entry>, k: nat)
    requires k < |es| && AllFit(Infos(c, es[..k + 1]))
    ensures AllFit(Infos(c, es[..k])) && |Flatten(Blocks(c, es[..k]))| == Size(c, es[..k])
    ensures var info := InfoOf(c, es[k], Size(c, es[..k]));
            && Fits(info)
            && Flatten(Blocks(c, es[..k + 1])) == Flatten(Blocks(c, es[..k])) + Block(info, c.deflate(es[k].content))
  {
    hide Block, Size, BlockSize;
    var upto := es[..k + 1];
    assert upto[..k] == es[..k] && upto[k] == es[k];
    BlocksSnoc(c, upto);
    NextInfo(c, es, k);
    assert Infos(c, upto)[k] == InfoOf(c, es[k], Size(c, es[..k]));
    OffsetsAreLengths(c, es[..k]);
    FlattenSnoc(Blocks(c, es[..k]), Blocks(c, upto)[k]);
  }

  lemma FitsSoFar(c: Codec, es: seq<Entry>, k: nat)
    requires k < |es| && AllFit(Infos(c, es[..k])) && Fits(InfoOf(c, es[k], Size(c, es[..k])))
    ensures AllFit(Infos(c, es[..k + 1]))
  {
    hide Size, Fits;
    NextInfo(c, es, k);
  }

  /** Reads a file to its end, buffer by buffer. */
  method ReadContent(content: seq<byte>) returns (seen: seq<byte>)
    ensures seen == content
  {
    seen := [];
    while |seen| < |content|
      invariant seen <= content
    {
      var left := |content| - |seen|;
      var count := if left < READ_SIZE then left else READ_SIZE;
      seen := seen + content[|seen|..|seen| + count];
    }
  }

  /** Header, compressed file and descriptor of one entry, for a stream that stands at `offset`. */
  method WriteEntry(c: Codec, e: Entry, offset: nat) returns (ok: bool, out: seq<byte>, info: Info)
    ensures ok <==> ArchivePath(e.name) && Fits(InfoOf(c, e, offset))
    ensures ok ==> info == InfoOf(c, e, offset) && out == Block(info, c.deflate(e.content))
  {
    hide ArchivePath, Encode;
    out, info := [], Info(e.name, FIXED, NO_ATTRIBUTES, 0, 0, 0, offset);
    if !ArchivePath(e.name) || |e.name| >= U16_LIMIT || offset >= U32_LIMIT {
      return false, out, info;
    }
    out := out + Encode(LocalFields(|e.name|));
    out := out + e.name;
    var start := |out|;
    var seen := ReadContent(e.content);
    out := out + c.deflate(seen);
    var packed := |out| - start;
    if packed >= U32_LIMIT || |seen| >= U32_LIMIT {
      return false, out, info;
    }
    out := out + Encode(DescriptorFields(c.crc(seen), packed, |seen|));
    return true, out, Info(e.name, FIXED, NO_ATTRIBUTES, c.crc(seen), packed, |seen|, offset);
  }

  /** The local part of the archive, entry by entry. */
  method WriteBlocks(c: Codec, es: seq<Entry>) returns (ok: bool, out: seq<byte>, central: seq<Info>)
    ensures ok <==> (forall k :: 0 <= k < |es| ==> ArchivePath(es[k].name)) && AllFit(Infos(c, es))
    ensures ok ==> central == Infos(c, es) && out == Flatten(Blocks(c, es))
  {
    hide ArchivePath, Encode, Size, Blocks, BlockSize, Infos, Block, Fits;
    out, central := [], [];
    NoBlocks(c);
    assert es[..0] == [];
    var k := 0;
    while k < |es|
      invariant k <= |es|
      invariant forall j :: 0 <= j < k ==> ArchivePath(es[j].name)
      invariant central == Infos(c, es[..k]) && AllFit(central) && out == Flatten(Blocks(c, es[..k]))
    {
      NextInfo(c, es, k);
      OffsetsAreLengths(c, es[..k]);
      var wrote, block, info := WriteEntry(c, es[k], |out|);
      if !wrote {
        return false, out, central;
      }
      out, central := out + block, central + [info];
      FitsSoFar(c, es, k);
      NextBlock(c, es, k);
      k := k + 1;
    }
    assert es[..k] == es;
    ok := true;
  }

  method WriteCentral(infos: seq<Info>) returns (out: seq<byte>)
    requires AllFit(infos)
    ensures out == Flatten(Centrals(infos))
  {
    hide Encode, Fits;
    out := [];
    var k := 0;
    assert Centrals(infos)[..0] == [];
    while k < |infos|
      invariant k <= |infos| && out == Flatten(Centrals(infos)[..k])
    {
      assert Centrals(infos)[..k + 1] == Centrals(infos)[..k] + [Centrals(infos)[k]];
      FlattenSnoc(Centrals(infos)[..k], Centrals(infos)[k]);
      out := out + (Encode(CentralFields(infos[k])) + infos[k].name);
      k := k + 1;
    }
    assert Centrals(infos)[..k] == Centrals(infos);
  }

  /** `write_deterministic_zip` and `write_zip_file`. */
  method WriteDeterministicZip(c: Codec, entries: seq<Entry>) returns (z: Option<seq<byte>>)
    ensures z == WriteZip(c, entries)
  {
    hide ArchivePath, Encode, Blocks, Infos, Centrals, SortBy;
    var es := SortBy(NameOf, entries);
    if |es| == 0 || |es| >= U16_LIMIT {
      return None;
    }
    var ok, out, central := WriteBlocks(c, es);
    if !ok {
      return None;
    }
    var centralOffset := |out|;
    if centralOffset >= U32_LIMIT {
      return None;
    }
    var directory := WriteCentral(central);
    out := out + directory;
    var centralSize := |out| - centralOffset;
    if centralSize >= U32_LIMIT {
      return None;
    }
    out := out + Encode(EndFields(|es|, centralSize, centralOffset));
    return Some(out);
  }
}
