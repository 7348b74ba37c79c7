/** The batch importer that fills a cache image's source tree. */
module Import {
  import opened Bytes
  import opened Snapshot
  import opened Paths
  import opened SourceTree
  import opened CacheProtocol

  // ----- One entry -----

  /** Where the operating system fails an entry: not at all, at once, or after part of the work. */
  datatype Fault = NoFault | NotStarted | Halfway(written: nat, mode: nat)

  datatype ImportError = Io | DataOverflow | DataIncomplete | NotSequential | UnreferencedData

  datatype Progress = Advanced(cursor: nat) | Broke(error: ImportError)

  /** `create_dir` and `set_permissions`. */
  function CreateDirectory(t: Tree, l: Location, fault: Fault): (r: (Tree, Option<ImportError>))
    requires l != []
  {
    if fault.NotStarted? || l in t || !IsDir(t, Parent(l)) then (t, Some(Io))
    else if fault.Halfway? then (t[l := Dir(fault.mode)], Some(Io))
    else (t[l := Dir(DIRECTORY_MODE)], None)
  }

  /** Appends to the file at l, which is there with content of length `offset`. */
  function Append(t: Tree, l: Location, bytes: seq<byte>, fault: Fault): (r: (Tree, Option<ImportError>))
    requires l in t && t[l].Regular?
  {
    var file := t[l];
    if |file.content| + |bytes| >= FILE_SIZE_LIMIT then (t, Some(Io))
    else if fault.Halfway? then
      (t[l := file.(content := file.content + bytes[..Least(fault.written, |bytes|)])], Some(Io))
    else (t[l := file.(content := file.content + bytes)], None)
  }

  /** Opens the file a chunk names, creating it for a first chunk, and appends the chunk. */
  function WriteChunk(t: Tree, l: Location, offset: nat, bytes: seq<byte>, truncate: bool, fault: Fault)
    : (r: (Tree, Option<ImportError>))
    requires l != []
  {
    if fault.NotStarted? then (t, Some(Io))
    else if truncate then
      if l in t || !IsDir(t, Parent(l)) then (t, Some(Io))
      else
        var mode := if fault.Halfway? then fault.mode else FILE_MODE;
        var created := t[l := Regular(mode, 1, [])];
        if offset != 0 then (created, Some(NotSequential)) else Append(created, l, bytes, fault)
    else if l !in t then (t, Some(Io))
    else if !t[l].Regular? || t[l].links != 1 || |t[l].content| != offset then (t, Some(NotSequential))
    else Append(t, l, bytes, fault)
  }

  function ApplyEntry(t: Tree, e: ImportEntry, data: seq<byte>, cursor: nat, fault: Fault): (r: (Tree, Progress))
  {
    var l := Split(e.path);
    match e
    case MakeDirectory(_) =>
      var (after, error) := CreateDirectory(t, l, fault);
      (after, if error.Some? then Broke(error.value) else Advanced(cursor))
    case FileChunk(_, offset, len, truncate) =>
      if cursor + len >= U64_LIMIT then (t, Broke(DataOverflow))
      else if cursor + len > |data| then (t, Broke(DataIncomplete))
      else
        var (after, error) := WriteChunk(t, l, offset, data[cursor..cursor + len], truncate, fault);
        (after, if error.Some? then Broke(error.value) else Advanced(cursor + len))
  }

  // ----- One batch -----

  /** Applies the entries from the i-th on; `faults` decides how the operating system treats each. */
  function ApplyFrom(t: Tree, es: seq<ImportEntry>, i: nat, data: seq<byte>, cursor: nat, faults: nat -> Fault)
    : (r: (Tree, Progress))
    requires i <= |es|
    decreases |es| - i
  {
    if i == |es| then (t, if cursor != |data| then Broke(UnreferencedData) else Advanced(cursor))
    else
      var (next, progress) := ApplyEntry(t, es[i], data, cursor, faults(i));
      if progress.Broke? then (next, progress) else ApplyFrom(next, es, i + 1, data, progress.cursor, faults)
  }

  function ApplyBatch(t: Tree, es: seq<ImportEntry>, data: seq<byte>, faults: nat -> Fault): (r: (Tree, Progress))
  {
    ApplyFrom(t, es, 0, data, 0, faults)
  }

  /** The source directory of an image under construction. */
  class SourceDirectory {
    var tree: Tree

    constructor (t: Tree)
      ensures tree == t
    {
      tree := t;
    }

    method CreateDir(l: Location, fault: Fault) returns (error: Option<ImportError>)
      requires l != []
      modifies this
      ensures (tree, error) == CreateDirectory(old(tree), l, fault)
    {
      if fault.NotStarted? || l in tree || !IsDir(tree, Parent(l)) {
        return Some(Io);
      }
      if fault.Halfway? {
        tree := tree[l := Dir(fault.mode)];
        return Some(Io);
      }
      tree := tree[l := Dir(DIRECTORY_MODE)];
      return None;
    }

    method WriteFile(l: Location, offset: nat, bytes: seq<byte>, truncate: bool, fault: Fault) returns (error: Option<ImportError>)
      requires l != []
      modifies this
      ensures (tree, error) == WriteChunk(old(tree), l, offset, bytes, truncate, fault)
    {
      if fault.NotStarted? {
        return Some(Io);
      }
      if truncate {
        if l in tree || !IsDir(tree, Parent(l)) {
          return Some(Io);
        }
        tree := tree[l := Regular(if fault.Halfway? then fault.mode else FILE_MODE, 1, [])];
      } else if l !in tree {
        return Some(Io);
      }
      var file := tree[l];
      if !file.Regular? || file.links != 1 || |file.content| != offset {
        return Some(NotSequential);
      }
      if offset + |bytes| >= FILE_SIZE_LIMIT {
        return Some(Io);
      }
      if fault.Halfway? {
        tree := tree[l := file.(content := file.content + bytes[..Least(fault.written, |bytes|)])];
        return Some(Io);
      }
      tree := tree[l := file.(content := file.content + bytes)];
      return None;
    }

    /** `apply_import_batch`. */
    method ApplyImportBatch(es: seq<ImportEntry>, data: seq<byte>, faults: nat -> Fault) returns (progress: Progress)
      modifies this
      ensures (tree, progress) == ApplyBatch(old(tree), es, data, faults)
    {
      var cursor := 0;
      for i := 0 to |es|
        invariant ApplyFrom(tree, es, i, data, cursor, faults) == ApplyBatch(old(tree), es, data, faults)
      {
        var l := Split(es[i].path);
        if es[i].MakeDirectory? {
          var error := CreateDir(l, faults(i));
          if error.Some? {
            return Broke(error.value);
          }
        } else {
          var end := cursor + es[i].len;
          if end >= U64_LIMIT {
            return Broke(DataOverflow);
          }
          if end > |data| {
            return Broke(DataIncomplete);
          }
          var error := WriteFile(l, es[i].offset, data[cursor..end], es[i].truncate, faults(i));
          if error.Some? {
            return Broke(error.value);
          }
          cursor := end;
        }
      }
      if cursor != |data| {
        return Broke(UnreferencedData);
      }
      return Advanced(cursor);
    }
  }

  // ----- What one entry means -----

  /** The tree an entry asks for, when it can be had: a new directory, a new file, or a file continued at its end. */
  function Asked(t: Tree, e: ImportEntry, bytes: seq<byte>): (r: Option<Tree>)
  {
    var l := Split(e.path);
    if e.MakeDirectory? || e.truncate then
      if l in t || !IsDir(t, Parent(l)) || (e.FileChunk? && (e.offset != 0 || |bytes| >= 0x8000_0000_0000_0000)) then None
      else Some(t[l := if e.MakeDirectory? then Dir(0x1ED) else Regular(0x1A4, 1, bytes)])
    else if l in t && t[l].Regular? && t[l].links == 1 && |t[l].content| == e.offset && e.offset + |bytes| < 0x8000_0000_0000_0000 then
      Some(t[l := t[l].(content := t[l].content + bytes)])
    else None
  }

  /** Why an entry that cannot be had breaks off: its place in the file is wrong, or the system refuses. */
  function Because(t: Tree, e: ImportEntry): (r: ImportError)
  {
    var l := Split(e.path);
    if e.MakeDirectory? then Io
    else if e.truncate then if l !in t && IsDir(t, Parent(l)) && e.offset != 0 then NotSequential else Io
    else if l in t && !(t[l].Regular? && t[l].links == 1 && |t[l].content| == e.offset) then NotSequential
    else Io
  }

  /** When the system does not fail, an entry does exactly what it asks for, or breaks off and says why. */
  lemma EntryDoesWhatItAsks(t: Tree, e: ImportEntry, data: seq<byte>, cursor: nat)
    requires cursor <= |data| < U64_LIMIT
    ensures var (after, progress) := ApplyEntry(t, e, data, cursor, NoFault);
            var len := if e.FileChunk? then e.len else 0;
            if cursor + len > |data| then
              after == t && progress == Broke(if cursor + len > 0xFFFF_FFFF_FFFF_FFFF then DataOverflow else DataIncomplete)
            else
              match Asked(t, e, data[cursor..cursor + len])
              case Some(u) => after == u && progress == Advanced(cursor + len)
              case None => progress == Broke(Because(t, e))
  {
    var l := Split(e.path);
    if e.FileChunk? && cursor + e.len <= |data| {
      var bytes := data[cursor..cursor + e.len];
      assert [] + bytes == bytes;
      assert t[l := Regular(FILE_MODE, 1, [])][l := Regular(FILE_MODE, 1, bytes)] == t[l := Regular(FILE_MODE, 1, bytes)];
    }
  }

  /** A failure halfway leaves a directory or file of some mode, and of a chunk no more than a prefix. */
  lemma EntryFailsHalfway(t: Tree, e: ImportEntry, data: seq<byte>, cursor: nat, written: nat, mode: nat)
    requires var len := if e.FileChunk? then e.len else 0;
             cursor + len <= |data| < U64_LIMIT && Asked(t, e, data[cursor..cursor + len]).Some?
    ensures var (after, progress) := ApplyEntry(t, e, data, cursor, Halfway(written, mode));
            var l := Split(e.path);
            && progress == Broke(Io)
            && l in after && after == t[l := after[l]]
            && (e.MakeDirectory? ==> after[l] == Dir(mode))
            && (e.FileChunk? ==>
                  var part := data[cursor..cursor + Least(written, e.len)];
                  after[l] == if e.truncate then Regular(mode, 1, part) else t[l].(content := t[l].content + part))
  {
    var l := Split(e.path);
    if e.FileChunk? {
      var n := Least(written, e.len);
      var part := data[cursor..cursor + n];
      assert data[cursor..cursor + e.len][..n] == part && [] + part == part;
      assert t[l := Regular(mode, 1, [])][l := Regular(mode, 1, part)] == t[l := Regular(mode, 1, part)];
    }
  }

  // ----- The data cursor -----

  /** A batch that succeeds has used all its data. */
  lemma {:induction false} SuccessUsesAllData(t: Tree, es: seq<ImportEntry>, i: nat, data: seq<byte>, cursor: nat, faults: nat -> Fault)
    requires i <= |es|
    ensures var progress := ApplyFrom(t, es, i, data, cursor, faults).1; progress.Advanced? ==> progress.cursor == |data|
    decreases |es| - i
  {
    hide ApplyEntry;
    if i < |es| {
      var (next, progress) := ApplyEntry(t, es[i], data, cursor, faults(i));
      if progress.Advanced? {
        SuccessUsesAllData(next, es, i + 1, data, progress.cursor, faults);
      }
    }
  }

  /** In a validated batch the cursor stays within the data and ends exactly at its end. */
  lemma {:induction false} CursorFits(t: Tree, es: seq<ImportEntry>, i: nat, data: seq<byte>, cursor: nat, faults: nat -> Fault)
    requires i <= |es| && cursor + DataBytes(es[i..]) == |data| < U64_LIMIT
    ensures var progress := ApplyFrom(t, es, i, data, cursor, faults).1;
            if progress.Broke? then progress.error == Io || progress.error == NotSequential else progress.cursor == |data|
    decreases |es| - i
  {
    if i < |es| {
      assert es[i..][0] == es[i] && es[i..][1..] == es[i + 1..];
      var (next, progress) := ApplyEntry(t, es[i], data, cursor, faults(i));
      if progress.Advanced? {
        CursorFits(next, es, i + 1, data, progress.cursor, faults);
      }
    }
  }

  /** The data errors of the importer cannot occur once the request passed validation. */
  lemma ValidBatchUsesItsData(t: Tree, es: seq<ImportEntry>, data: seq<byte>, faults: nat -> Fault)
    requires ValidBatch(es, |data|)
    ensures var progress := ApplyBatch(t, es, data, faults).1;
            if progress.Broke? then progress.error == Io || progress.error == NotSequential else progress.cursor == |data|
  {
    assert es[0..] == es;
    CursorFits(t, es, 0, data, 0, faults);
  }

  // ----- Importing only adds -----

  /** Nothing is removed, retyped or rewritten: directories stay, and files keep their content as a prefix. */
  ghost predicate Extends(t: Tree, u: Tree)
  {
    forall l :: l in t ==>
      && l in u
      && (match t[l]
          case Regular(mode, links, content) =>
            u[l].Regular? && u[l].mode == mode && u[l].links == links && content <= u[l].content
          case _ => u[l] == t[l])
  }

  lemma EntryExtends(t: Tree, e: ImportEntry, data: seq<byte>, cursor: nat, fault: Fault)
    ensures Extends(t, ApplyEntry(t, e, data, cursor, fault).0)
  {
  }

  lemma ExtendsTransitive(t: Tree, u: Tree, v: Tree)
    requires Extends(t, u) && Extends(u, v)
    ensures Extends(t, v)
  {
  }

  /** Whatever the entries are, and wherever the system fails, the importer only adds to the tree. */
  lemma {:induction false} ImportOnlyAdds(t: Tree, es: seq<ImportEntry>, i: nat, data: seq<byte>, cursor: nat, faults: nat -> Fault)
    requires i <= |es|
    ensures Extends(t, ApplyFrom(t, es, i, data, cursor, faults).0)
    decreases |es| - i
  {
    hide ApplyEntry, Extends;
    if i < |es| {
      var (next, progress) := ApplyEntry(t, es[i], data, cursor, faults(i));
      EntryExtends(t, es[i], data, cursor, faults(i));
      if progress.Advanced? {
        ImportOnlyAdds(next, es, i + 1, data, progress.cursor, faults);
        ExtendsTransitive(t, next, ApplyFrom(next, es, i + 1, data, progress.cursor, faults).0);
      }
    } else {
      SelfExtends(t);
    }
  }

  lemma SelfExtends(t: Tree)
    ensures Extends(t, t)
  {
  }

  /** The tree stays well formed, so it can be hashed at any point. */
  lemma PutKeepsWellFormed(t: Tree, l: Location, n: Node)
    requires WellFormed(t) && l != [] && Portable(l) && IsDir(t, Parent(l))
    requires l in t ==> !t[l].Dir? && !n.Dir?
    requires n.Regular? ==> |n.content| < FILE_SIZE_LIMIT
    ensures WellFormed(t[l := n])
  {
    var u := t[l := n];
    forall m, k | m in u && 0 <= k < |m|
      ensures FileName(m[k]) && IsDir(u, m[..k])
    {
      if m == l {
        if k == |l| - 1 {
          assert m[..k] == Parent(l);
        } else {
          assert m[..k] == Parent(l)[..k];
          assert Parent(l)[k] == l[k];
        }
      }
    }
  }

  lemma EntryKeepsWellFormed(t: Tree, e: ImportEntry, data: seq<byte>, cursor: nat, fault: Fault)
    requires WellFormed(t) && ValidImportPath(e.path)
    ensures WellFormed(ApplyEntry(t, e, data, cursor, fault).0)
  {
    hide WellFormed, Portable, ValidImportPath;
    ImportPathsAreLocations(e.path);
    var l := Split(e.path);
    var u := ApplyEntry(t, e, data, cursor, fault).0;
    if u != t {
      if l in t { HasParent(t, l); }
      var n := u[l];
      PutKeepsWellFormed(t, l, n);
      assert u == t[l := n];
    }
  }

  lemma HasParent(t: Tree, l: Location)
    requires WellFormed(t) && l in t && l != []
    ensures IsDir(t, Parent(l))
  {
    assert IsDir(t, l[..|l| - 1]);
  }

  lemma {:induction false} ImportKeepsWellFormed(t: Tree, es: seq<ImportEntry>, i: nat, data: seq<byte>, cursor: nat, faults: nat -> Fault)
    requires WellFormed(t) && i <= |es| && forall k :: 0 <= k < |es| ==> ValidImportPath(es[k].path)
    ensures WellFormed(ApplyFrom(t, es, i, data, cursor, faults).0)
    decreases |es| - i
  {
    hide WellFormed, ValidImportPath, ApplyEntry;
    if i < |es| {
      var (next, progress) := ApplyEntry(t, es[i], data, cursor, faults(i));
      EntryKeepsWellFormed(t, es[i], data, cursor, faults(i));
      if progress.Advanced? {
        ImportKeepsWellFormed(next, es, i + 1, data, progress.cursor, faults);
      }
    }
  }
}
