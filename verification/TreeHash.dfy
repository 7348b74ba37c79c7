/** Hashing a source tree: the loops that feed the encoder, and the key they give. */
module TreeHash {
  import opened Bytes
  import opened Snapshot
  import opened Paths
  import opened SourceTree

  const HASH_BUFFER_SIZE := 512 * 1024

  // ----- Keys -----

  type Digest = d: seq<byte> | |d| == 32 witness seq(32, _ => 0)

  /** BLAKE3, as any function to 32-byte digests. */
  type Hash = seq<byte> -> Digest

  function HexDigit(n: byte): (c: byte)
    requires n < 16
  {
    if n < 10 then 0x30 + n else 0x61 + n - 10
  }

  function Hex(d: seq<byte>): (s: seq<byte>)
    ensures |s| == 2 * |d|
  {
    if d == [] then [] else [HexDigit(d[0] / 16), HexDigit(d[0] % 16)] + Hex(d[1..])
  }

  predicate IsHexDigit(c: byte)
  {
    0x30 <= c <= 0x39 || 0x61 <= c <= 0x66
  }

  lemma {:induction false} HexIsLowercase(d: seq<byte>)
    ensures forall i :: 0 <= i < |Hex(d)| ==> IsHexDigit(Hex(d)[i])
  {
    if d != [] {
      HexIsLowercase(d[1..]);
    }
  }

  /** The value of a hexadecimal digit. */
  function DigitValue(c: byte): (n: nat)
  {
    if '0' as int <= c <= '9' as int then c - '0' as int
    else if 'a' as int <= c <= 'f' as int then c - 'a' as int + 10
    else 0
  }

  /** Two digits for every byte, the more significant one first. */
  lemma {:induction false} HexReadsBack(d: seq<byte>, i: nat)
    requires i < |d|
    ensures DigitValue(Hex(d)[2 * i]) * 16 + DigitValue(Hex(d)[2 * i + 1]) == d[i]
  {
    if i > 0 {
      HexReadsBack(d[1..], i - 1);
      assert Hex(d)[2 * i] == Hex(d[1..])[2 * (i - 1)] && Hex(d)[2 * i + 1] == Hex(d[1..])[2 * (i - 1) + 1];
    }
  }

  lemma {:induction false} HexInjective(d: seq<byte>, e: seq<byte>)
    requires |d| == |e| && Hex(d) == Hex(e)
    ensures d == e
  {
    if d != [] {
      var x, y := Hex(d), Hex(e);
      assert x[0] == y[0] && x[1] == y[1];
      assert x[2..] == Hex(d[1..]) && y[2..] == Hex(e[1..]);
      HexInjective(d[1..], e[1..]);
      assert d[0] / 16 == e[0] / 16 && d[0] % 16 == e[0] % 16;
      assert d == [d[0]] + d[1..] && e == [e[0]] + e[1..];
    }
  }

  /** The key of a tree, when it can be walked. */
  function TreeKey(hash: Hash, t: Tree, listing: Listing): (r: Option<seq<byte>>)
  {
    match TreeStream(t, listing)
    case None => None
    case Some(bytes) => Some(Hex(hash(bytes)))
  }

  /** The key spells the digest of the tree's stream: 64 lower-case hexadecimal digits, two for each byte in order. */
  lemma KeySpellsTheDigest(hash: Hash, t: Tree, listing: Listing, i: nat)
    requires TreeKey(hash, t, listing).Some? && i < 32
    ensures TreeStream(t, listing).Some?
    ensures var key, d := TreeKey(hash, t, listing).value, hash(TreeStream(t, listing).value);
            && |key| == 64 && IsHexDigit(key[2 * i]) && IsHexDigit(key[2 * i + 1])
            && DigitValue(key[2 * i]) * 16 + DigitValue(key[2 * i + 1]) == d[i]
  {
    hide TreeStream;
    var d := hash(TreeStream(t, listing).value);
    HexIsLowercase(d);
    HexReadsBack(d, i);
  }

  ghost predicate Collision(hash: Hash, a: seq<byte>, b: seq<byte>)
  {
    a != b && hash(a) == hash(b)
  }

  /** Equal keys mean equal trees, unless the two streams are a hash collision. */
  lemma KeyDeterminesTree(hash: Hash, t: Tree, u: Tree, listT: Listing, listU: Listing)
    requires WellFormed(t) && WellFormed(u) && Honest(t, listT) && Honest(u, listU)
    requires TreeKey(hash, t, listT).Some? && TreeKey(hash, t, listT) == TreeKey(hash, u, listU)
    ensures t == u || Collision(hash, TreeStream(t, listT).value, TreeStream(u, listU).value)
  {
    WalkVisitsEverything(t, listT);
    WalkVisitsEverything(u, listU);
    StreamDeterminesTree(t, u, listT, listU);
    HexInjective(hash(TreeStream(t, listT).value), hash(TreeStream(u, listU).value));
  }

  lemma KeyIgnoresListing(hash: Hash, t: Tree, one: Listing, two: Listing)
    requires Honest(t, one) && Honest(t, two)
    ensures TreeKey(hash, t, one) == TreeKey(hash, t, two)
  {
    ListingOrderIsIrrelevant(t, one, two);
  }

  // ----- The hashing loops -----

  /** Feeds one regular file in buffer-sized reads. */
  method HashFile(relative: Path, content: seq<byte>, encoder: KeyEncoder) returns (ok: bool)
    requires encoder.remaining.None? && |content| < U64_LIMIT
    modifies encoder
    ensures ok <==> ValidRelativePath(relative) && |relative| < U32_LIMIT
    ensures ok ==> encoder.Value() == Encoder(old(encoder.fed) + EncodeRecord(File(relative, content)), None)
  {
    hide ValidRelativePath, EncodePrefix, Be64;
    var began := encoder.BeginFile(relative, |content|);
    if began.Refused? {
      return false;
    }
    ghost var start := encoder.fed;
    var remaining: nat := |content|;
    while remaining != 0
      invariant remaining <= |content|
      invariant encoder.remaining == Some(remaining)
      invariant encoder.fed == start + content[..|content| - remaining]
    {
      var wanted := if remaining < HASH_BUFFER_SIZE then remaining else HASH_BUFFER_SIZE;
      var from := |content| - remaining;
      var wrote := encoder.WriteFileBytes(content[from..from + wanted]);
      assert content[..from] + content[from..from + wanted] == content[..from + wanted];
      assert wrote.Done?;
      remaining := remaining - wanted;
    }
    assert content[..|content|] == content;
    ghost var prefix, length := EncodePrefix(FILE_RECORD, relative, FILE_MODE), Be64(|content|);
    assert old(encoder.fed) + (prefix + length + content) == old(encoder.fed) + prefix + length + content;
    var closed := encoder.CloseFile();
    ok := true;
  }

  lemma WalkNamesStep(t: Tree, listing: Listing, d: Location, names: seq<Name>, i: nat)
    requires i < |names|
    ensures var r, entry, later := WalkNames(t, listing, d, names[i..]), WalkEntry(t, listing, d + [names[i]]), WalkNames(t, listing, d, names[i + 1..]);
            && (r.Visited? <==> entry.Visited? && later.Visited?)
            && (r.Visited? ==> r.order == entry.order + later.order)
            && (d + [names[i]] !in t ==> r.Stopped?)
  {
    hide WalkDirectory;
    assert names[i..][0] == names[i] && names[i..][1..] == names[i + 1..];
  }

  lemma WalkDirectoryIsItsNames(t: Tree, listing: Listing, d: Location)
    ensures var r, listed := WalkDirectory(t, listing, d), DirectoryNames(listing(d));
            if listed.BadNames? then r.Stopped? else r == WalkNames(t, listing, d, listed.names)
    ensures WalkNames(t, listing, d, []) == Visited([])
  {
  }

  lemma RecordsConcat(t: Tree, a: seq<Location>, b: seq<Location>)
    ensures EncodeRecords(Records(t, a + b)) == EncodeRecords(Records(t, a)) + EncodeRecords(Records(t, b))
  {
    hide RecordOf, EncodeRecord, EncodeRecords;
    assert Records(t, a + b) == Records(t, a) + Records(t, b);
    EncodeConcat(Records(t, a), Records(t, b));
  }

  lemma NoRecords(t: Tree)
    ensures EncodeRecords(Records(t, [])) == []
  {
  }

  /** What a visited entry, and everything below it, adds to the stream. */
  lemma VisitAppends(t: Tree, p: Location, inner: seq<Location>)
    ensures EncodeRecords(Records(t, [p] + inner)) == EncodeRecord(RecordOf(t, p)) + EncodeRecords(Records(t, inner))
  {
    hide RecordOf, EncodeRecord;
    var rs := Records(t, [p] + inner);
    assert rs[0] == RecordOf(t, p) && rs[1..] == Records(t, inner);
  }

  /** What the walk visits at and below an entry. */
  function WalkEntry(t: Tree, listing: Listing, p: Location): (r: Walked)
  {
    match EntryError(t, p)
    case Some(e) => Stopped(e)
    case None =>
      var inner := if t[p].Dir? then WalkDirectory(t, listing, p) else Visited([]);
      if inner.Stopped? then inner else Visited([p] + inner.order)
  }

  method HashEntry(t: Tree, listing: Listing, p: Location, encoder: KeyEncoder) returns (ok: bool)
    requires WellFormed(t) && encoder.remaining.None?
    modifies encoder
    ensures ok <==> WalkEntry(t, listing, p).Visited?
    ensures ok ==> encoder.Value() == Encoder(old(encoder.fed) + EncodeRecords(Records(t, WalkEntry(t, listing, p).order)), None)
    decreases Under(t, p), 1
  {
    hide ValidRelativePath, EncodePrefix, EncodeRecords, Records, WellFormed, WalkDirectory, Render;
    var relative := Render(p);
    NoRecords(t);
    if p !in t || t[p].Other? {
      return false;
    }
    if t[p].Dir? {
      if t[p].mode != DIRECTORY_MODE {
        return false;
      }
      var added := encoder.AddDirectory(relative);
      if added.Refused? {
        return false;
      }
      ok := HashDirectory(t, listing, p, encoder);
      if ok {
        ghost var inner := WalkDirectory(t, listing, p).order;
        VisitAppends(t, p, inner);
        assert old(encoder.fed) + EncodeRecord(RecordOf(t, p)) + EncodeRecords(Records(t, inner))
            == old(encoder.fed) + (EncodeRecord(RecordOf(t, p)) + EncodeRecords(Records(t, inner)));
      }
    } else {
      if t[p].links != 1 || t[p].mode != FILE_MODE {
        return false;
      }
      ContentFits(t, p);
      ok := HashFile(relative, t[p].content, encoder);
      VisitAppends(t, p, []);
    }
  }

  method HashDirectory(t: Tree, listing: Listing, d: Location, encoder: KeyEncoder) returns (ok: bool)
    requires WellFormed(t) && encoder.remaining.None?
    modifies encoder
    ensures ok <==> WalkDirectory(t, listing, d).Visited?
    ensures ok ==> encoder.Value() == Encoder(old(encoder.fed) + EncodeRecords(Records(t, WalkDirectory(t, listing, d).order)), None)
    decreases Under(t, d), 0
  {
    hide EncodeRecords, Records, WellFormed, WalkDirectory, WalkNames, WalkEntry, DirectoryNames;
    WalkDirectoryIsItsNames(t, listing, d);
    var listed := DirectoryNames(listing(d));
    if listed.BadNames? {
      return false;
    }
    var names := listed.names;
    ghost var whole := WalkNames(t, listing, d, names);
    ghost var done: seq<Location> := [];
    var i := 0;
    assert names[0..] == names;
    NoRecords(t);
    while i < |names|
      invariant i <= |names| && encoder.remaining.None?
      invariant encoder.fed == old(encoder.fed) + EncodeRecords(Records(t, done))
      invariant var rest := WalkNames(t, listing, d, names[i..]);
                (whole.Visited? <==> rest.Visited?) && (whole.Visited? ==> whole.order == done + rest.order)
    {
      var p := d + [names[i]];
      WalkNamesStep(t, listing, d, names, i);
      if p !in t {
        return false;
      }
      ChildIsSmaller(t, d, names[i]);
      var hashed := HashEntry(t, listing, p, encoder);
      if !hashed {
        return false;
      }
      ghost var entry := WalkEntry(t, listing, p).order;
      RecordsConcat(t, done, entry);
      done := done + entry;
      i := i + 1;
    }
    assert names[i..] == [] && done + [] == done;
    return true;
  }

  lemma RootRecord(t: Tree)
    requires IsDir(t, [])
    ensures ValidRelativePath([]) && RecordOf(t, []) == Directory([])
  {
    RenderAccepted([]);
  }

  /** The header, the root's record and the records below it are the tree's stream. */
  lemma RootedStream(t: Tree, inner: seq<Location>)
    requires IsDir(t, [])
    ensures HEADER + EncodePrefix(DIRECTORY_RECORD, [], DIRECTORY_MODE) + EncodeRecords(Records(t, inner))
         == Stream(Records(t, [[]] + inner))
  {
    hide ValidRelativePath, EncodePrefix, EncodeRecords, Records;
    RootRecord(t);
    VisitAppends(t, [], inner);
    var a, b := EncodePrefix(DIRECTORY_RECORD, [], DIRECTORY_MODE), EncodeRecords(Records(t, inner));
    assert HEADER + a + b == HEADER + (a + b);
  }

  /** `hash_source_tree`: the key of the tree, or a refusal, as TreeKey says. */
  method HashSourceTree(hash: Hash, t: Tree, listing: Listing) returns (key: Option<seq<byte>>)
    requires WellFormed(t)
    ensures key == TreeKey(hash, t, listing)
  {
    hide ValidRelativePath, EncodePrefix, EncodeRecords, Records, WalkDirectory, Stream;
    RootRecord(t);
    if t[[]].mode != DIRECTORY_MODE {
      return None;
    }
    var encoder := new KeyEncoder();
    var added := encoder.AddDirectory([]);
    var ok := HashDirectory(t, listing, [], encoder);
    if !ok {
      return None;
    }
    RootedStream(t, WalkDirectory(t, listing, []).order);
    key := Some(Hex(hash(encoder.fed)));
  }
}
