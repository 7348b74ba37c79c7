/** The directory walk that feeds a source tree to the snapshot encoder. */
module SourceTree {
  import opened Bytes
  import opened Utf8
  import opened Snapshot
  import opened Paths

  /** What `lstat` shows of a directory entry, with the content of a regular file. */
  datatype Node = Dir(mode: nat) | Regular(mode: nat, links: nat, content: seq<byte>) | Other

  type Tree = map<Location, Node>

  /** Reads a directory: its names, in whatever order the file system lists them. */
  type Listing = Location -> seq<Name>

  const FILE_SIZE_LIMIT := 0x8000_0000_0000_0000

  predicate IsDir(t: Tree, d: Location)
  {
    d in t && t[d].Dir?
  }

  /** Every entry has a proper name inside an existing directory, and sizes fit `off_t`. */
  predicate WellFormed(t: Tree)
  {
    && IsDir(t, [])
    && (forall l :: l in t ==> forall k :: 0 <= k < |l| ==> FileName(l[k]) && IsDir(t, l[..k]))
    && (forall l :: l in t && t[l].Regular? ==> |t[l].content| < FILE_SIZE_LIMIT)
  }

  ghost predicate Enumerates(t: Tree, d: Location, names: seq<Name>)
  {
    && NoRepeats(names)
    && (forall n :: n in names <==> d + [n] in t)
  }

  ghost predicate Honest(t: Tree, listing: Listing)
  {
    forall d :: IsDir(t, d) ==> Enumerates(t, d, listing(d))
  }

  /** The entries strictly below a directory. */
  function Under(t: Tree, d: Location): (s: set<Location>)
  {
    set l | l in t && |d| < |l| && l[..|d|] == d
  }

  lemma ChildIsSmaller(t: Tree, d: Location, n: Name)
    requires d + [n] in t
    ensures d + [n] in Under(t, d)
    ensures Under(t, d + [n]) < Under(t, d)
  {
    var p := d + [n];
    assert p[..|d|] == d;
    assert forall l :: l in Under(t, p) ==> l[..|d|] == l[..|p|][..|d|];
  }

  // ----- The walk -----

  datatype WalkError = BadName | DuplicateName | Vanished | WrongMode | NotPlainFile | Unsupported | BadPath

  datatype Walked = Visited(order: seq<Location>) | Stopped(error: WalkError)

  datatype Names = InOrder(names: seq<Name>) | BadNames(error: WalkError)

  predicate CleanName(n: Name)
  {
    IsUtf8(n) && BACKSLASH !in n
  }

  function Itself(n: Name): (r: Name)
  {
    n
  }

  function DirectoryNames(names: seq<Name>): (r: Names)
    ensures r.InOrder? ==> |r.names| == |names|
  {
    if exists n :: n in names && !CleanName(n) then BadNames(BadName)
    else
      var sorted := SortBy(Itself, names);
      if exists i :: 0 <= i < |sorted| - 1 && sorted[i] == sorted[i + 1] then BadNames(DuplicateName) else InOrder(sorted)
  }

  /** The checks made on one entry before it is recorded. */
  function EntryError(t: Tree, p: Location): (r: Option<WalkError>)
  {
    if p !in t then Some(Vanished)
    else if t[p].Other? then Some(Unsupported)
    else if t[p].Dir? && t[p].mode != DIRECTORY_MODE then Some(WrongMode)
    else if t[p].Regular? && (t[p].links != 1 || t[p].mode != FILE_MODE) then Some(NotPlainFile)
    else if !ValidRelativePath(Render(p)) || |Render(p)| >= U32_LIMIT then Some(BadPath)
    else None
  }

  function WalkDirectory(t: Tree, listing: Listing, d: Location): (r: Walked)
    decreases Under(t, d), |listing(d)| + 1
  {
    match DirectoryNames(listing(d))
    case BadNames(e) => Stopped(e)
    case InOrder(names) => WalkNames(t, listing, d, names)
  }

  function WalkNames(t: Tree, listing: Listing, d: Location, names: seq<Name>): (r: Walked)
    decreases Under(t, d), |names|
  {
    if names == [] then Visited([])
    else
      var p := d + [names[0]];
      match EntryError(t, p)
      case Some(e) => Stopped(e)
      case None =>
        ChildIsSmaller(t, d, names[0]);
        var inner := if t[p].Dir? then WalkDirectory(t, listing, p) else Visited([]);
        if inner.Stopped? then inner
        else
          var later := WalkNames(t, listing, d, names[1..]);
          if later.Stopped? then later else Visited([p] + inner.order + later.order)
  }

  function WalkTree(t: Tree, listing: Listing): (r: Walked)
  {
    if !IsDir(t, []) || t[[]].mode != DIRECTORY_MODE then Stopped(WrongMode)
    else
      var inner := WalkDirectory(t, listing, []);
      if inner.Stopped? then inner else Visited([[]] + inner.order)
  }

  function RecordOf(t: Tree, l: Location): (r: Record)
  {
    if l in t && t[l].Regular? then File(Render(l), t[l].content) else Directory(Render(l))
  }

  function Records(t: Tree, order: seq<Location>): (r: seq<Record>)
    ensures |r| == |order|
    ensures forall i :: 0 <= i < |order| ==> r[i] == RecordOf(t, order[i])
  {
    if order == [] then [] else [RecordOf(t, order[0])] + Records(t, order[1..])
  }

  // ----- What the walk visits -----

  /** An entry the cache can represent. */
  predicate Normal(t: Tree, l: Location)
    requires l in t
  {
    && (l != [] ==> CleanName(l[|l| - 1]))
    && (match t[l]
        case Dir(mode) => mode == DIRECTORY_MODE
        case Regular(mode, links, _) => mode == FILE_MODE && links == 1
        case Other => false)
    && |Render(l)| < U32_LIMIT
  }

  predicate Normalised(t: Tree)
  {
    forall l :: l in t ==> Normal(t, l)
  }

  /** Below d, each entry comes after the directory that holds it. */
  predicate ParentsFirst(d: Location, ls: seq<Location>)
  {
    forall i :: 0 <= i < |ls| ==> ls[i] != [] && (Parent(ls[i]) == d || Parent(ls[i]) in ls[..i])
  }

  /** The entries below d reached through the given names. */
  function Through(t: Tree, d: Location, names: seq<Name>): (s: set<Location>)
  {
    set l | l in Under(t, d) && l[|d|] in names
  }

  ghost predicate Covers(t: Tree, d: Location, names: seq<Name>, order: seq<Location>)
  {
    && (forall l :: l in order <==> l in Through(t, d, names))
    && NoRepeats(order)
    && ParentsFirst(d, order)
  }

  ghost predicate AllNormal(t: Tree, s: set<Location>)
  {
    forall l :: l in s ==> l in t && Normal(t, l)
  }

  predicate CleanNames(names: seq<Name>)
  {
    forall i :: 0 <= i < |names| ==> CleanName(names[i])
  }

  lemma SortedNames(names: seq<Name>)
    requires NoRepeats(names)
    ensures var sorted := SortBy(Itself, names);
            NoRepeats(sorted) && forall n :: n in sorted <==> n in names
  {
    var sorted := SortBy(Itself, names);
    SortByCorrect(Itself, names);
    DistinctKeysPermute(Itself, names, sorted);
    assert forall i :: 0 <= i < |sorted| ==> Itself(sorted[i]) == sorted[i];
    assert forall n :: n in sorted <==> n in multiset(sorted);
    assert forall n :: n in names <==> n in multiset(names);
  }

  lemma DirectoryNamesFacts(names: seq<Name>)
    requires NoRepeats(names)
    ensures var r := DirectoryNames(names);
            && (r.InOrder? <==> CleanNames(names))
            && (r.InOrder? ==> NoRepeats(r.names) && CleanNames(r.names) && forall n :: n in r.names <==> n in names)
  {
    hide CleanName, SortBy;
    SortedNames(names);
    assert CleanNames(names) <==> forall n :: n in names ==> CleanName(n);
  }

  lemma EntryErrorFacts(t: Tree, d: Location, n: Name)
    requires WellFormed(t) && d + [n] in t && Portable(d) && CleanName(n)
    ensures EntryError(t, d + [n]).None? <==> Normal(t, d + [n])
    ensures Portable(d + [n])
  {
    var p := d + [n];
    assert FileName(p[|d|]);
    assert forall i :: 0 <= i < |p| ==> FileName(p[i]) && BACKSLASH !in p[i];
    RenderAccepted(p);
  }

  lemma ThroughCons(t: Tree, d: Location, names: seq<Name>)
    requires WellFormed(t) && names != [] && d + [names[0]] in t
    ensures Through(t, d, names) == {d + [names[0]]} + Under(t, d + [names[0]]) + Through(t, d, names[1..])
    ensures t[d + [names[0]]].Dir? || Under(t, d + [names[0]]) == {}
  {
    var p := d + [names[0]];
    ChildIsSmaller(t, d, names[0]);
    assert names == [names[0]] + names[1..];
    forall l | l in Through(t, d, names)
      ensures l in {p} + Under(t, p) + Through(t, d, names[1..])
    {
      if l[|d|] == names[0] {
        assert l[..|p|] == p;
        assert |l| == |p| ==> l == p;
      }
    }
    forall l | l in Under(t, p)
      ensures l in Through(t, d, names) && IsDir(t, p)
    {
      assert l[|d|] == l[..|p|][|d|] && l[..|d|] == l[..|p|][..|d|];
    }
  }

  lemma NoRepeatsCons(p: Location, inner: seq<Location>, later: seq<Location>)
    requires NoRepeats(inner) && NoRepeats(later) && p !in inner && p !in later && forall l :: l in inner ==> l !in later
    ensures NoRepeats([p] + inner + later)
  {
    var order := [p] + inner + later;
    forall i, j | 0 <= i < j < |order|
      ensures order[i] != order[j]
    {
      if j <= |inner| {
        assert order[j] == inner[j - 1] && order[j] in inner;
      } else {
        assert order[j] == later[j - 1 - |inner|] && order[j] in later;
      }
    }
  }

  lemma ParentsFirstCons(d: Location, p: Location, inner: seq<Location>, later: seq<Location>)
    requires p != [] && Parent(p) == d && ParentsFirst(p, inner) && ParentsFirst(d, later)
    ensures ParentsFirst(d, [p] + inner + later)
  {
    var order := [p] + inner + later;
    forall i | 0 <= i < |order|
      ensures order[i] != [] && (Parent(order[i]) == d || Parent(order[i]) in order[..i])
    {
      if 1 <= i < 1 + |inner| {
        assert order[i] == inner[i - 1] && order[..i] == [p] + inner[..i - 1];
      } else if 1 + |inner| <= i {
        var k := i - 1 - |inner|;
        assert order[i] == later[k] && order[..i] == [p] + inner + later[..k];
      }
    }
  }

  lemma CoversCons(t: Tree, d: Location, names: seq<Name>, inner: seq<Location>, later: seq<Location>)
    requires WellFormed(t) && names != [] && d + [names[0]] in t && NoRepeats(names)
    requires (forall l :: l in inner <==> l in Under(t, d + [names[0]])) && NoRepeats(inner) && ParentsFirst(d + [names[0]], inner)
    requires Covers(t, d, names[1..], later)
    ensures Covers(t, d, names, [d + [names[0]]] + inner + later)
  {
    hide WellFormed;
    var p := d + [names[0]];
    ThroughCons(t, d, names);
    assert p !in inner;
    assert names[0] !in names[1..];
    assert forall l :: l in Under(t, p) ==> l[|d|] == l[..|p|][|d|];
    assert forall l :: l in later ==> l[|d|] in names[1..];
    NoRepeatsCons(p, inner, later);
    ParentsFirstCons(d, p, inner, later);
  }

  lemma CoversNothing(t: Tree, d: Location)
    ensures Through(t, d, []) == {} && Covers(t, d, [], [])
  {
  }

  lemma {:induction false} NamesFacts(t: Tree, listing: Listing, d: Location, names: seq<Name>)
    requires WellFormed(t) && Honest(t, listing) && IsDir(t, d) && Portable(d)
    requires CleanNames(names) && NoRepeats(names) && forall i :: 0 <= i < |names| ==> d + [names[i]] in t
    ensures var r := WalkNames(t, listing, d, names);
            && (r.Visited? <==> AllNormal(t, Through(t, d, names)))
            && (r.Visited? ==> Covers(t, d, names, r.order))
    decreases Under(t, d), |names|
  {
    hide WellFormed, Portable, EntryError, Normal, Covers, Honest, WalkDirectory;
    if names == [] {
      CoversNothing(t, d);
    } else {
      var p, rest := d + [names[0]], names[1..];
      EntryErrorFacts(t, d, names[0]);
      ThroughCons(t, d, names);
      ChildIsSmaller(t, d, names[0]);
      if EntryError(t, p).None? {
        if t[p].Dir? {
          DirectoryFacts(t, listing, p);
        }
        NamesFacts(t, listing, d, rest);
        var r := WalkNames(t, listing, d, names);
        if r.Visited? {
          var inner := if t[p].Dir? then WalkDirectory(t, listing, p).order else [];
          var later := WalkNames(t, listing, d, rest).order;
          CoversCons(t, d, names, inner, later);
        }
      }
    }
  }

  lemma ThroughAll(t: Tree, d: Location, names: seq<Name>)
    requires WellFormed(t) && forall n :: d + [n] in t ==> n in names
    ensures Through(t, d, names) == Under(t, d)
  {
    forall l | l in Under(t, d)
      ensures l[|d|] in names
    {
      assert l[..|d| + 1] == d + [l[|d|]];
      if |l| == |d| + 1 {
        assert l == l[..|d| + 1];
      } else {
        assert IsDir(t, l[..|d| + 1]);
      }
    }
  }

  /** The walk of a directory succeeds exactly on representable contents, and visits each entry once, parents first. */
  lemma {:induction false} DirectoryFacts(t: Tree, listing: Listing, d: Location)
    requires WellFormed(t) && Honest(t, listing) && IsDir(t, d) && Portable(d)
    ensures var r := WalkDirectory(t, listing, d);
            && (r.Visited? <==> AllNormal(t, Under(t, d)))
            && (r.Visited? ==> (forall l :: l in r.order <==> l in Under(t, d)) && NoRepeats(r.order) && ParentsFirst(d, r.order))
    decreases Under(t, d), |listing(d)| + 1
  {
    hide CleanName, WellFormed, WalkNames, Portable;
    var names := listing(d);
    assert Enumerates(t, d, names);
    DirectoryNamesFacts(names);
    if CleanNames(names) {
      var sorted := DirectoryNames(names).names;
      assert forall i :: 0 <= i < |sorted| ==> sorted[i] in names;
      ThroughAll(t, d, sorted);
      NamesFacts(t, listing, d, sorted);
    } else {
      var i :| 0 <= i < |names| && !CleanName(names[i]);
      var p := d + [names[i]];
      assert names[i] in names;
      ChildIsSmaller(t, d, names[i]);
      assert !Normal(t, p);
    }
  }

  // ----- Whole trees -----

  /**
   The walk succeeds exactly on normalised trees. It visits every entry once, starting at the root, with each
   directory before its contents, and every record it makes is one the encoder accepts.
   */
  lemma WalkVisitsEverything(t: Tree, listing: Listing)
    requires WellFormed(t) && Honest(t, listing)
    ensures var r := WalkTree(t, listing);
            && (r.Visited? <==> Normalised(t))
            && (r.Visited? ==>
                  && (forall l :: l in r.order <==> l in t)
                  && NoRepeats(r.order)
                  && r.order[0] == [] && ParentsFirst([], r.order[1..])
                  && ValidRecords(Records(t, r.order)))
  {
    hide WalkDirectory, Normalised, AllNormal, ValidRecords, ParentsFirst, NoRepeats, Under, Honest;
    RootAndBelow(t);
    DirectoryFacts(t, listing, []);
    var r := WalkTree(t, listing);
    if r.Visited? {
      var inner := WalkDirectory(t, listing, []).order;
      assert r.order[1..] == inner;
      NoRepeatsRoot(inner);
      NormalisedRecords(t, r.order);
    }
  }

  lemma NoRepeatsRoot(inner: seq<Location>)
    requires NoRepeats(inner) && [] !in inner
    ensures NoRepeats([[]] + inner)
  {
  }

  lemma RootAndBelow(t: Tree)
    requires IsDir(t, [])
    ensures [] !in Under(t, [])
    ensures Normalised(t) <==> t[[]].mode == DIRECTORY_MODE && AllNormal(t, Under(t, []))
    ensures forall l :: l in t <==> l == [] || l in Under(t, [])
  {
    hide CleanName;
    assert forall l: Location :: l[..0] == [];
    assert Normal(t, []) <==> t[[]].mode == DIRECTORY_MODE;
  }

  lemma NormalisedRecords(t: Tree, order: seq<Location>)
    requires WellFormed(t) && Normalised(t) && forall l :: l in order ==> l in t
    ensures ValidRecords(Records(t, order))
  {
    hide ValidRelativePath, CleanName, WellFormed;
    forall i | 0 <= i < |order|
      ensures ValidRecord(RecordOf(t, order[i]))
    {
      NormalisedIsPortable(t, order[i]);
      RenderAccepted(order[i]);
      assert Normal(t, order[i]);
      if t[order[i]].Regular? { ContentFits(t, order[i]); }
    }
  }

  lemma ContentFits(t: Tree, l: Location)
    requires WellFormed(t) && l in t && t[l].Regular?
    ensures |t[l].content| < U64_LIMIT
  {
  }

  lemma NameIsClean(t: Tree, l: Location, k: nat)
    requires WellFormed(t) && Normalised(t) && l in t && k < |l|
    ensures CleanName(l[k]) && FileName(l[k])
  {
    hide CleanName, FileName, Render;
    var p := l[..k + 1];
    assert p in t by {
      if k + 1 == |l| {
        assert p == l;
      } else {
        assert IsDir(t, p);
      }
    }
    assert Normal(t, p) && p[|p| - 1] == l[k];
  }

  lemma NormalisedIsPortable(t: Tree, l: Location)
    requires WellFormed(t) && Normalised(t) && l in t
    ensures Portable(l)
  {
    hide WellFormed, Normalised, IsUtf8, FileName;
    forall k | 0 <= k < |l|
      ensures BACKSLASH !in l[k] && FileName(l[k])
    {
      NameIsClean(t, l, k);
    }
  }

  // ----- The order of listings is irrelevant -----

  lemma SameNames(names: seq<Name>, others: seq<Name>)
    requires NoRepeats(names) && NoRepeats(others) && forall n :: n in names <==> n in others
    ensures DirectoryNames(names) == DirectoryNames(others)
  {
    hide CleanName;
    assert DistinctKeys(Itself, names) && DistinctKeys(Itself, others);
    forall n: Name
      ensures multiset(names)[n] == multiset(others)[n]
    {
      DistinctKeysOccurOnce(Itself, names, n);
      DistinctKeysOccurOnce(Itself, others, n);
      assert (n in names) == (n in multiset(names)) && (n in others) == (n in multiset(others));
    }
    assert multiset(names) == multiset(others);
    SortIsCanonical(Itself, names, others);
  }

  lemma {:induction false} ListingOrderBelow(t: Tree, one: Listing, two: Listing, d: Location)
    requires Honest(t, one) && Honest(t, two) && IsDir(t, d)
    ensures WalkDirectory(t, one, d) == WalkDirectory(t, two, d)
    decreases Under(t, d), |one(d)| + 1
  {
    hide DirectoryNames, WalkNames;
    assert Enumerates(t, d, one(d)) && Enumerates(t, d, two(d));
    SameNames(one(d), two(d));
    var names := DirectoryNames(one(d));
    if names.InOrder? {
      ListingOrderAmong(t, one, two, d, names.names);
    }
  }

  lemma {:induction false} ListingOrderAmong(t: Tree, one: Listing, two: Listing, d: Location, names: seq<Name>)
    requires Honest(t, one) && Honest(t, two)
    ensures WalkNames(t, one, d, names) == WalkNames(t, two, d, names)
    decreases Under(t, d), |names|
  {
    hide WalkDirectory, Honest;
    if names != [] {
      var p := d + [names[0]];
      if EntryError(t, p).None? {
        ChildIsSmaller(t, d, names[0]);
        if t[p].Dir? {
          ListingOrderBelow(t, one, two, p);
        }
        ListingOrderAmong(t, one, two, d, names[1..]);
      }
    }
  }

  lemma ListingOrderIsIrrelevant(t: Tree, one: Listing, two: Listing)
    requires Honest(t, one) && Honest(t, two)
    ensures WalkTree(t, one) == WalkTree(t, two)
  {
    if IsDir(t, []) {
      ListingOrderBelow(t, one, two, []);
    }
  }

  // ----- The stream determines the tree -----

  /** The bytes hashed for a tree, when it can be walked. */
  function TreeStream(t: Tree, listing: Listing): (r: Option<seq<byte>>)
  {
    match WalkTree(t, listing)
    case Stopped(_) => None
    case Visited(order) => Some(Stream(Records(t, order)))
  }

  lemma RecordDetermines(t: Tree, l: Location, u: Tree, m: Location)
    requires WellFormed(t) && WellFormed(u) && Normalised(t) && Normalised(u)
    requires l in t && m in u && RecordOf(t, l) == RecordOf(u, m)
    ensures l == m && t[l] == u[m]
  {
    hide CleanName, Render;
    assert Components(l) && Components(m);
    RenderInjective(l, m);
    assert Normal(t, l) && Normal(u, m);
  }

  lemma SameRecordsInclude(t: Tree, ls: seq<Location>, u: Tree, ms: seq<Location>)
    requires WellFormed(t) && WellFormed(u) && Normalised(t) && Normalised(u)
    requires (forall l :: l in ls <==> l in t) && (forall m :: m in ms <==> m in u)
    requires Records(t, ls) == Records(u, ms)
    ensures forall l :: l in t ==> l in u && t[l] == u[l]
  {
    hide WellFormed, Normalised, RecordOf;
    forall l | l in t
      ensures l in u && t[l] == u[l]
    {
      var i :| 0 <= i < |ls| && ls[i] == l;
      assert Records(t, ls)[i] == RecordOf(t, l) && Records(u, ms)[i] == RecordOf(u, ms[i]);
      assert ms[i] in ms;
      RecordDetermines(t, l, u, ms[i]);
    }
  }

  /** Two trees feed the encoder the same bytes exactly when they are the same tree. */
  lemma StreamDeterminesTree(t: Tree, u: Tree, listT: Listing, listU: Listing)
    requires WellFormed(t) && WellFormed(u) && Honest(t, listT) && Honest(u, listU)
    requires Normalised(t) && Normalised(u)
    ensures TreeStream(t, listT).Some? && TreeStream(u, listU).Some?
    ensures TreeStream(t, listT) == TreeStream(u, listU) <==> t == u
  {
    hide WellFormed, Normalised, Honest, WalkTree, Stream, ValidRecords, NoRepeats, ParentsFirst;
    WalkVisitsEverything(t, listT);
    WalkVisitsEverything(u, listU);
    var ls, ms := WalkTree(t, listT).order, WalkTree(u, listU).order;
    if TreeStream(t, listT) == TreeStream(u, listU) {
      StreamInjective(Records(t, ls), Records(u, ms));
      SameRecordsInclude(t, ls, u, ms);
      SameRecordsInclude(u, ms, t, ls);
    }
    if t == u {
      ListingOrderIsIrrelevant(t, listT, listU);
    }
  }
}
