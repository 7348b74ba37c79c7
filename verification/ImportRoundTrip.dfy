/** A host's listing of a tree, cut into chunks and batches in any way, rebuilds that tree in the guest. */
module ImportRoundTrip {
  import opened Bytes
  import opened Snapshot
  import opened Paths
  import opened SourceTree
  import opened TreeHash
  import opened CacheProtocol
  import opened Import

  // ----- What the host sends -----

  datatype Item = DirectoryItem(at: Location) | FileItem(at: Location, chunks: seq<seq<byte>>)

  /** An entry with the data that travels for it. */
  datatype Piece = Piece(entry: ImportEntry, bytes: seq<byte>)

  predicate ShortChunks(chunks: seq<seq<byte>>)
  {
    forall i :: 0 <= i < |chunks| ==> |chunks[i]| < U32_LIMIT
  }

  /** The chunks of a file after `sofar` bytes; only the very first one creates the file. */
  function ChunkPieces(at: Location, chunks: seq<seq<byte>>, sofar: nat, first: bool): (r: seq<Piece>)
    requires ShortChunks(chunks) && sofar + |Flatten(chunks)| < FILE_SIZE_LIMIT
    decreases |chunks|
  {
    if chunks == [] then []
    else
      [Piece(FileChunk(Render(at), sofar, |chunks[0]|, first), chunks[0])]
      + ChunkPieces(at, chunks[1..], sofar + |chunks[0]|, false)
  }

  predicate Sendable(item: Item)
  {
    item.FileItem? ==> item.chunks != [] && ShortChunks(item.chunks) && |Flatten(item.chunks)| < FILE_SIZE_LIMIT
  }

  function ItemPieces(item: Item): (r: seq<Piece>)
    requires Sendable(item)
  {
    match item
    case DirectoryItem(at) => [Piece(MakeDirectory(Render(at)), [])]
    case FileItem(at, chunks) => ChunkPieces(at, chunks, 0, true)
  }

  function AllPieces(items: seq<Item>): (r: seq<Piece>)
    requires forall i :: 0 <= i < |items| ==> Sendable(items[i])
  {
    if items == [] then [] else ItemPieces(items[0]) + AllPieces(items[1..])
  }

  function Entries(batch: seq<Piece>): (r: seq<ImportEntry>)
    ensures |r| == |batch|
    ensures forall i :: 0 <= i < |batch| ==> r[i] == batch[i].entry
  {
    seq(|batch|, i requires 0 <= i < |batch| => batch[i].entry)
  }

  function Data(batch: seq<Piece>): (r: seq<byte>)
  {
    if batch == [] then [] else batch[0].bytes + Data(batch[1..])
  }

  // ----- What the guest does with it -----

  function NoFaults(i: nat): (f: Fault)
  {
    NoFault
  }

  /** One request after another; None as soon as one is refused. */
  function ImportAll(t: Tree, batches: seq<seq<Piece>>): (r: Option<Tree>)
    decreases |batches|
  {
    if batches == [] then Some(t)
    else if !ValidBatch(Entries(batches[0]), |Data(batches[0])|) then None
    else
      var (after, progress) := ApplyBatch(t, Entries(batches[0]), Data(batches[0]), NoFaults);
      if progress.Broke? then None else ImportAll(after, batches[1..])
  }

  const EMPTY_SOURCE: Tree := map[[] := Dir(DIRECTORY_MODE)]

  // ----- Pieces without their batches -----

  /** The effect of one piece. */
  function ApplyPiece(t: Tree, p: Piece): (r: Option<Tree>)
  {
    var l := Split(p.entry.path);
    var (after, error) :=
      match p.entry
      case MakeDirectory(_) => CreateDirectory(t, l, NoFault)
      case FileChunk(_, offset, _, truncate) => WriteChunk(t, l, offset, p.bytes, truncate, NoFault);
    if error.Some? then None else Some(after)
  }

  function ApplyPieces(t: Tree, ps: seq<Piece>): (r: Option<Tree>)
    decreases |ps|
  {
    if ps == [] then Some(t)
    else
      match ApplyPiece(t, ps[0])
      case None => None
      case Some(next) => ApplyPieces(next, ps[1..])
  }

  lemma {:induction false} ApplyPiecesConcat(t: Tree, a: seq<Piece>, b: seq<Piece>)
    ensures ApplyPieces(t, a + b) ==
            match ApplyPieces(t, a) case None => None case Some(u) => ApplyPieces(u, b)
    decreases |a|
  {
    hide ApplyPiece;
    if a == [] {
      assert a + b == b;
    } else {
      assert (a + b)[0] == a[0] && (a + b)[1..] == a[1..] + b;
      var next := ApplyPiece(t, a[0]);
      if next.Some? {
        ApplyPiecesConcat(next.value, a[1..], b);
      }
    }
  }

  predicate Consistent(p: Piece)
  {
    if p.entry.FileChunk? then |p.bytes| == p.entry.len else p.bytes == []
  }

  predicate AllConsistent(ps: seq<Piece>)
  {
    forall i :: 0 <= i < |ps| ==> Consistent(ps[i])
  }

  lemma PieceInBatch(t: Tree, p: Piece, before: seq<byte>, after: seq<byte>)
    requires Consistent(p) && |before| + |p.bytes| < U64_LIMIT
    ensures var (next, progress) := ApplyEntry(t, p.entry, before + p.bytes + after, |before|, NoFault);
            match ApplyPiece(t, p)
            case None => progress.Broke?
            case Some(u) => next == u && progress == Advanced(|before| + |p.bytes|)
  {
    hide CreateDirectory, WriteChunk, Split;
    var data := before + p.bytes + after;
    assert data[|before|..|before| + |p.bytes|] == p.bytes;
  }

  /** Cutting the data out of the batch by its cursor gives each entry its own bytes. */
  lemma {:induction false} BatchIsPieces(t: Tree, batch: seq<Piece>, i: nat, before: seq<byte>)
    requires i <= |batch| && AllConsistent(batch) && |before| + |Data(batch[i..])| < U64_LIMIT
    ensures var (after, progress) := ApplyFrom(t, Entries(batch), i, before + Data(batch[i..]), |before|, NoFaults);
            match ApplyPieces(t, batch[i..])
            case None => progress.Broke?
            case Some(u) => after == u && progress.Advanced?
    decreases |batch| - i
  {
    hide ApplyEntry, ApplyPiece;
    var data := before + Data(batch[i..]);
    if i < |batch| {
      var p, rest := batch[i], Data(batch[i + 1..]);
      assert batch[i..][0] == p && batch[i..][1..] == batch[i + 1..];
      assert data == before + p.bytes + rest;
      PieceInBatch(t, p, before, rest);
      var next := ApplyPiece(t, p);
      if next.Some? {
        BatchIsPieces(next.value, batch, i + 1, before + p.bytes);
      }
    }
  }

  lemma {:induction false} ImportAllIsPieces(t: Tree, batches: seq<seq<Piece>>)
    requires forall i :: 0 <= i < |batches| ==> AllConsistent(batches[i]) && ValidBatch(Entries(batches[i]), |Data(batches[i])|)
    ensures ImportAll(t, batches) == ApplyPieces(t, Flatten(batches))
    decreases |batches|
  {
    hide ApplyPiece, ApplyFrom, AllConsistent;
    if batches != [] {
      var b := batches[0];
      assert b[0..] == b && [] + Data(b) == Data(b);
      BatchIsPieces(t, b, 0, []);
      ApplyPiecesConcat(t, b, Flatten(batches[1..]));
      var (after, progress) := ApplyBatch(t, Entries(b), Data(b), NoFaults);
      if progress.Advanced? {
        ImportAllIsPieces(after, batches[1..]);
      }
    }
  }

  // ----- Items build the tree -----

  /** The part of t at the given locations. */
  function Part(t: Tree, ls: set<Location>): (r: Tree)
  {
    map l | l in t && l in ls :: t[l]
  }

  predicate Spells(t: Tree, item: Item)
  {
    && item.at in t
    && item.at != []
    && (match item
        case DirectoryItem(at) => t[at].Dir?
        case FileItem(at, chunks) =>
          t[at].Regular? && t[at].content == Flatten(chunks) && chunks != [] && ShortChunks(chunks))
  }

  lemma SplitOf(t: Tree, l: Location)
    requires WellFormed(t) && l in t && l != []
    ensures Split(Render(l)) == l
  {
    assert Components(l);
    SplitRender(l);
  }

  lemma {:induction false} ChunksGrow(u: Tree, l: Location, chunks: seq<seq<byte>>, content: seq<byte>)
    requires l != [] && l in u && u[l] == Regular(FILE_MODE, 1, content) && Split(Render(l)) == l
    requires ShortChunks(chunks) && |content| + |Flatten(chunks)| < FILE_SIZE_LIMIT
    ensures ApplyPieces(u, ChunkPieces(l, chunks, |content|, false))
         == Some(u[l := Regular(FILE_MODE, 1, content + Flatten(chunks))])
    decreases |chunks|
  {
    if chunks == [] {
      assert content + Flatten(chunks) == content;
      assert u[l := u[l]] == u;
    } else {
      var ps := ChunkPieces(l, chunks, |content|, false);
      var rest := Flatten(chunks[1..]);
      var grown := content + chunks[0];
      var next := u[l := Regular(FILE_MODE, 1, grown)];
      assert ApplyPiece(u, ps[0]) == Some(next);
      assert ps[1..] == ChunkPieces(l, chunks[1..], |grown|, false);
      assert grown + rest == content + Flatten(chunks);
      ChunksGrow(next, l, chunks[1..], grown);
      assert next[l := Regular(FILE_MODE, 1, grown + rest)] == u[l := Regular(FILE_MODE, 1, grown + rest)];
    }
  }

  lemma ItemBuilds(t: Tree, u: Tree, item: Item)
    requires WellFormed(t) && Normalised(t) && Spells(t, item) && Sendable(item)
    requires item.at !in u && IsDir(u, Parent(item.at))
    ensures ApplyPieces(u, ItemPieces(item)) == Some(u[item.at := t[item.at]])
  {
    hide WellFormed, CleanName, Render;
    var l := item.at;
    SplitOf(t, l);
    assert Normal(t, l);
    var ps := ItemPieces(item);
    match item
    case DirectoryItem(_) =>
      assert ps[1..] == [];
    case FileItem(_, chunks) =>
      var next := u[l := Regular(FILE_MODE, 1, chunks[0])];
      assert [] + chunks[0] == chunks[0];
      assert u[l := Regular(FILE_MODE, 1, [])][l := next[l]] == next;
      assert ApplyPiece(u, ps[0]) == Some(next);
      assert ps[1..] == ChunkPieces(l, chunks[1..], |chunks[0]|, false);
      ChunksGrow(next, l, chunks[1..], chunks[0]);
      assert next[l := t[l]] == u[l := t[l]];
  }

  function Places(items: seq<Item>): (r: seq<Location>)
    ensures |r| == |items|
    ensures forall i :: 0 <= i < |items| ==> r[i] == items[i].at
  {
    seq(|items|, i requires 0 <= i < |items| => items[i].at)
  }

  /** The items name every entry below the root once, each after the directory that holds it. */
  ghost predicate Lists(t: Tree, items: seq<Item>)
  {
    && (forall i :: 0 <= i < |items| ==> Spells(t, items[i]))
    && NoRepeats(Places(items))
    && ParentsFirst([], Places(items))
    && (forall l :: l in t && l != [] ==> l in Places(items))
  }

  /** The part of t that the first k items have built. */
  function Built(t: Tree, items: seq<Item>, k: nat): (r: Tree)
    requires k <= |items|
  {
    Part(t, {[]} + set i | 0 <= i < k :: items[i].at)
  }

  lemma ParentIsBuilt(t: Tree, items: seq<Item>, k: nat)
    requires WellFormed(t) && Lists(t, items) && k < |items|
    ensures items[k].at in t && items[k].at != [] && IsDir(Built(t, items, k), Parent(items[k].at))
  {
    hide WellFormed, NoRepeats;
    var l, places := items[k].at, Places(items);
    assert Spells(t, items[k]) && l == places[k];
    HasParent(t, l);
    var p := Parent(l);
    if p != [] {
      var i :| 0 <= i < k && places[..k][i] == p;
      assert items[i].at == p;
    }
  }

  lemma BuiltGrows(t: Tree, items: seq<Item>, k: nat)
    requires WellFormed(t) && Lists(t, items) && k < |items|
    ensures var u, l := Built(t, items, k), items[k].at;
            l !in u && l in t && l != [] && IsDir(u, Parent(l)) && Built(t, items, k + 1) == u[l := t[l]]
  {
    hide WellFormed, ParentsFirst, Spells;
    ParentIsBuilt(t, items, k);
    var places := Places(items);
    assert items[k].at == places[k] && forall i :: 0 <= i < k ==> items[i].at == places[i];
  }

  lemma {:induction false} ItemsBuild(t: Tree, items: seq<Item>, k: nat)
    requires WellFormed(t) && Normalised(t) && Lists(t, items) && k <= |items|
    requires forall i :: 0 <= i < |items| ==> Sendable(items[i])
    ensures ApplyPieces(Built(t, items, k), AllPieces(items[k..])) == Some(Built(t, items, |items|))
    decreases |items| - k
  {
    hide WellFormed, Normalised, ApplyPieces, ItemPieces, Built, Sendable;
    if k == |items| {
      NoPieces(Built(t, items, k));
    } else {
      var u := Built(t, items, k);
      assert items[k..][0] == items[k] && items[k..][1..] == items[k + 1..];
      BuiltGrows(t, items, k);
      ItemBuilds(t, u, items[k]);
      ApplyPiecesConcat(u, ItemPieces(items[k]), AllPieces(items[k + 1..]));
      ItemsBuild(t, items, k + 1);
    }
  }

  lemma NoPieces(t: Tree)
    ensures ApplyPieces(t, []) == Some(t)
  {
  }

  lemma BuiltEnds(t: Tree, items: seq<Item>)
    requires WellFormed(t) && Normalised(t) && Lists(t, items)
    ensures Built(t, items, 0) == EMPTY_SOURCE && Built(t, items, |items|) == t
  {
    hide WellFormed, Normalised, Spells, NoRepeats, ParentsFirst;
    RootIsPlain(t);
    forall l | l in t
      ensures l in Built(t, items, |items|)
    {
      if l != [] {
        var i :| 0 <= i < |items| && Places(items)[i] == l;
        assert items[i].at == l;
      }
    }
  }

  lemma RootIsPlain(t: Tree)
    requires WellFormed(t) && Normalised(t)
    ensures [] in t && t[[]] == Dir(DIRECTORY_MODE)
  {
    assert Normal(t, []);
  }

  lemma {:induction false} PiecesAreConsistent(items: seq<Item>)
    requires forall i :: 0 <= i < |items| ==> Sendable(items[i])
    ensures AllConsistent(AllPieces(items))
  {
    if items != [] {
      PiecesAreConsistent(items[1..]);
      if items[0].FileItem? {
        ChunksAreConsistent(items[0].at, items[0].chunks, 0, true);
      }
    }
  }

  lemma {:induction false} ChunksAreConsistent(at: Location, chunks: seq<seq<byte>>, sofar: nat, first: bool)
    requires ShortChunks(chunks) && sofar + |Flatten(chunks)| < FILE_SIZE_LIMIT
    ensures AllConsistent(ChunkPieces(at, chunks, sofar, first))
    decreases |chunks|
  {
    if chunks != [] {
      ChunksAreConsistent(at, chunks[1..], sofar + |chunks[0]|, false);
    }
  }

  lemma {:induction false} ConsistentBatches(batches: seq<seq<Piece>>, i: nat)
    requires AllConsistent(Flatten(batches)) && i < |batches|
    ensures AllConsistent(batches[i])
    decreases |batches|
  {
    var rest := Flatten(batches[1..]);
    var all := Flatten(batches);
    if i == 0 {
      assert forall k :: 0 <= k < |batches[0]| ==> all[k] == batches[0][k];
    } else {
      assert forall k :: 0 <= k < |rest| ==> all[|batches[0]| + k] == rest[k];
      ConsistentBatches(batches[1..], i - 1);
    }
  }

  /**
   Any parents-first listing of a tree, its files cut into chunks in any way and the whole cut into valid batches
   in any way, rebuilds exactly that tree from an empty source.
   */
  lemma ImportRebuildsTheTree(t: Tree, items: seq<Item>, batches: seq<seq<Piece>>)
    requires WellFormed(t) && Normalised(t) && Lists(t, items)
    requires forall i :: 0 <= i < |items| ==> Sendable(items[i])
    requires Flatten(batches) == AllPieces(items)
    requires forall i :: 0 <= i < |batches| ==> ValidBatch(Entries(batches[i]), |Data(batches[i])|)
    ensures ImportAll(EMPTY_SOURCE, batches) == Some(t)
  {
    hide WellFormed, Normalised, Lists, Sendable, ApplyPieces, AllConsistent, ValidBatch, Built, AllPieces;
    PiecesAreConsistent(items);
    forall i | 0 <= i < |batches|
      ensures AllConsistent(batches[i])
    {
      ConsistentBatches(batches, i);
    }
    ImportAllIsPieces(EMPTY_SOURCE, batches);
    BuiltEnds(t, items);
    ItemsBuild(t, items, 0);
    assert items[0..] == items;
  }

  /** So the key the guest computes when it seals the image is the key the host's own walk gives. */
  lemma SealedKeyIsTheHostKey(hash: Hash, t: Tree, items: seq<Item>, batches: seq<seq<Piece>>, host: Listing, guest: Listing)
    requires WellFormed(t) && Normalised(t) && Lists(t, items) && Honest(t, host)
    requires forall i :: 0 <= i < |items| ==> Sendable(items[i])
    requires Flatten(batches) == AllPieces(items)
    requires forall i :: 0 <= i < |batches| ==> ValidBatch(Entries(batches[i]), |Data(batches[i])|)
    requires forall u :: ImportAll(EMPTY_SOURCE, batches) == Some(u) ==> Honest(u, guest)
    ensures TreeKey(hash, t, host).Some?
    ensures var u := ImportAll(EMPTY_SOURCE, batches);
            u.Some? && TreeKey(hash, u.value, guest) == TreeKey(hash, t, host)
  {
    hide WellFormed, Normalised, Lists, Sendable, ValidBatch, AllPieces, Honest, WalkTree;
    ImportRebuildsTheTree(t, items, batches);
    WalkVisitsEverything(t, host);
    KeyIgnoresListing(hash, t, host, guest);
  }

  // ----- The walk's own order is such a listing -----

  /** A way to cut every file of a tree into chunks. */
  ghost predicate Cuts(t: Tree, cut: Location -> seq<seq<byte>>)
  {
    forall l :: l in t && t[l].Regular? ==> Flatten(cut(l)) == t[l].content && cut(l) != [] && ShortChunks(cut(l))
  }

  function ItemAt(t: Tree, cut: Location -> seq<seq<byte>>, l: Location): (r: Item)
  {
    if l in t && t[l].Regular? then FileItem(l, cut(l)) else DirectoryItem(l)
  }

  function ItemsAt(t: Tree, cut: Location -> seq<seq<byte>>, ls: seq<Location>): (r: seq<Item>)
    ensures |r| == |ls|
    ensures forall i :: 0 <= i < |ls| ==> r[i] == ItemAt(t, cut, ls[i])
  {
    seq(|ls|, i requires 0 <= i < |ls| => ItemAt(t, cut, ls[i]))
  }

  lemma ItemSpells(t: Tree, cut: Location -> seq<seq<byte>>, l: Location)
    requires Normalised(t) && Cuts(t, cut) && l in t && l != []
    ensures Spells(t, ItemAt(t, cut, l))
  {
    hide CleanName, Render;
    assert Normal(t, l);
  }

  /** The order of the encoder's walk below the root is such a listing, however the files are cut. */
  lemma WalkIsAListing(t: Tree, listing: Listing, cut: Location -> seq<seq<byte>>)
    requires WellFormed(t) && Honest(t, listing) && Normalised(t) && Cuts(t, cut)
    ensures var r := WalkTree(t, listing);
            r.Visited? && r.order != [] && Lists(t, ItemsAt(t, cut, r.order[1..]))
  {
    hide WellFormed, Honest, Normalised, Cuts, WalkTree, ValidRecords, NoRepeats, ParentsFirst, Spells, ItemAt;
    WalkVisitsEverything(t, listing);
    RootIsPlain(t);
    var order := WalkTree(t, listing).order;
    var below := order[1..];
    var items := ItemsAt(t, cut, below);
    TailRepeatsNothing(order);
    forall i | 0 <= i < |items|
      ensures Spells(t, items[i]) && Places(items)[i] == below[i]
    {
      assert below[i] == order[i + 1] && order[i + 1] in order;
      ItemSpells(t, cut, below[i]);
      ItemIsAt(t, cut, below[i]);
    }
    assert Places(items) == below;
    assert order == [[]] + below;
  }

  lemma ItemIsAt(t: Tree, cut: Location -> seq<seq<byte>>, l: Location)
    ensures ItemAt(t, cut, l).at == l
  {
  }

  lemma TailRepeatsNothing(order: seq<Location>)
    requires NoRepeats(order) && order != []
    ensures NoRepeats(order[1..]) && order[0] !in order[1..]
  {
  }
}
