/** The order in which the walk feeds a tree to the encoder, and why it stops. */
module WalkOrder {
  import opened Bytes
  import opened Utf8
  import opened Snapshot
  import opened Paths
  import opened SourceTree

  // ----- The order -----

  /** Component by component: a directory before what it holds, and siblings by their names' bytes. */
  ghost predicate Before(l: Location, m: Location)
  {
    l < m || exists k :: 0 <= k < |l| && k < |m| && l[..k] == m[..k] && Precedes(l[k], m[k])
  }

  predicate Precedes(a: Name, b: Name)
  {
    a != b && Leq(a, b)
  }

  ghost predicate Increasing(ls: seq<Location>)
  {
    forall i, j :: 0 <= i < j < |ls| ==> Before(ls[i], ls[j])
  }

  ghost predicate Ascending(names: seq<Name>)
  {
    forall i, j :: 0 <= i < j < |names| ==> Precedes(names[i], names[j])
  }

  /** Sorted names without equal neighbours have no equal names at all. */
  lemma NamesAscend(names: seq<Name>)
    requires DirectoryNames(names).InOrder?
    ensures Ascending(DirectoryNames(names).names)
  {
    hide SortBy, CleanName, Leq;
    var sorted := SortBy(Itself, names);
    SortByCorrect(Itself, names);
    forall i, j | 0 <= i < j < |sorted|
      ensures Precedes(sorted[i], sorted[j])
    {
      assert Leq(Itself(sorted[i]), Itself(sorted[j]));
      if sorted[i] == sorted[j] {
        assert Leq(Itself(sorted[i]), Itself(sorted[i + 1]));
        assert i + 1 < j ==> Leq(Itself(sorted[i + 1]), Itself(sorted[j]));
        LeqTotal(sorted[i], sorted[i + 1]);
        assert false;
      }
    }
  }

  /** What a walk below d through the given names yields, in order. */
  ghost predicate Ordered(d: Location, names: seq<Name>, order: seq<Location>)
  {
    && (forall l :: l in order ==> d < l && l[|d|] in names)
    && Increasing(order)
  }

  lemma OrderedCons(d: Location, names: seq<Name>, below: seq<Name>, inner: seq<Location>, later: seq<Location>)
    requires names != [] && Ascending(names)
    requires Ordered(d + [names[0]], below, inner) && Ordered(d, names[1..], later)
    ensures Ordered(d, names, [d + [names[0]]] + inner + later)
  {
    hide Leq;
    var p, order := d + [names[0]], [d + [names[0]]] + inner + later;
    forall l | l in later
      ensures d < l && Precedes(names[0], l[|d|])
    {
      var k :| 0 <= k < |names[1..]| && names[1..][k] == l[|d|];
      assert names[k + 1] == l[|d|];
    }
    forall l | l in [p] + inner
      ensures d < l && l[|d|] == names[0] && l[..|d|] == d
    {
      assert l == p || p < l;
    }
    forall i, j | 0 <= i < j < |order|
      ensures Before(order[i], order[j])
    {
      if 1 + |inner| <= i {
        assert order[i] == later[i - 1 - |inner|] && order[j] == later[j - 1 - |inner|];
      } else {
        assert order[i] == ([p] + inner)[i] && order[i] in [p] + inner;
        if j <= |inner| {
          assert order[j] == inner[j - 1] && order[j] in inner;
          assert i > 0 ==> order[i] == inner[i - 1];
        } else {
          var m := later[j - 1 - |inner|];
          assert order[j] == m && m in later;
          assert order[i][..|d|] == m[..|d|] && Precedes(order[i][|d|], m[|d|]);
        }
      }
    }
  }

  lemma {:induction false} NamesInOrder(t: Tree, listing: Listing, d: Location, names: seq<Name>)
    requires Ascending(names) && WalkNames(t, listing, d, names).Visited?
    ensures Ordered(d, names, WalkNames(t, listing, d, names).order)
    decreases Under(t, d), |names|
  {
    hide EntryError, Ordered, Ascending, WalkDirectory;
    if names == [] {
      NothingOrdered(d);
    } else {
      var p, rest := d + [names[0]], names[1..];
      ChildOf(t, listing, d, names);
      ChildIsSmaller(t, d, names[0]);
      TailAscends(names);
      NamesInOrder(t, listing, d, rest);
      var later := WalkNames(t, listing, d, rest).order;
      if t[p].Dir? {
        var below := DirectoryInOrder(t, listing, p);
        OrderedCons(d, names, below, WalkDirectory(t, listing, p).order, later);
      } else {
        NothingOrdered(p);
        OrderedCons(d, names, [], [], later);
      }
    }
  }

  lemma ChildOf(t: Tree, listing: Listing, d: Location, names: seq<Name>)
    requires names != [] && WalkNames(t, listing, d, names).Visited?
    ensures d + [names[0]] in t
  {
  }

  lemma NothingOrdered(d: Location)
    ensures Ordered(d, [], [])
  {
  }

  lemma TailAscends(names: seq<Name>)
    requires names != [] && Ascending(names)
    ensures Ascending(names[1..])
  {
  }

  lemma {:induction false} DirectoryInOrder(t: Tree, listing: Listing, d: Location) returns (names: seq<Name>)
    requires WalkDirectory(t, listing, d).Visited?
    ensures Ordered(d, names, WalkDirectory(t, listing, d).order)
    decreases Under(t, d), |listing(d)| + 1
  {
    hide Ordered, Ascending, WalkNames, DirectoryNames;
    names := DirectoryNames(listing(d)).names;
    NamesAscend(listing(d));
    NamesInOrder(t, listing, d, names);
  }

  /** Whatever order the file system lists names in, entries are recorded in the order of their component lists. */
  lemma WalkIsInOrder(t: Tree, listing: Listing)
    requires WalkTree(t, listing).Visited?
    ensures Increasing(WalkTree(t, listing).order)
  {
    hide WalkDirectory;
    var names := DirectoryInOrder(t, listing, []);
    var inner := WalkDirectory(t, listing, []).order;
    var order := [[]] + inner;
    forall i, j | 0 <= i < j < |order|
      ensures Before(order[i], order[j])
    {
      assert order[j] == inner[j - 1] && order[j] in inner;
      assert i > 0 ==> order[i] == inner[i - 1];
    }
  }

  lemma BeforeIsOneWay(l: Location, m: Location)
    requires Before(l, m)
    ensures !Before(m, l) && l != m
  {
    forall k | 0 <= k < |l| && k < |m|
      ensures !(Precedes(l[k], m[k]) && Precedes(m[k], l[k]))
    {
      LeqTotal(l[k], m[k]);
    }
  }

  /** There is only one such order: two increasing lists of the same entries are equal. */
  lemma {:induction false} IncreasingIsUnique(a: seq<Location>, b: seq<Location>)
    requires Increasing(a) && Increasing(b) && forall l :: l in a <==> l in b
    ensures a == b
    decreases |a|
  {
    hide Before;
    assert a != [] ==> a[0] in b;
    assert b != [] ==> b[0] in a;
    if a != [] {
      var i :| 0 <= i < |b| && b[i] == a[0];
      var j :| 0 <= j < |a| && a[j] == b[0];
      if i > 0 {
        BeforeIsOneWay(b[0], a[0]);
        assert false;
      }
      TailMembers(a);
      TailMembers(b);
      IncreasingIsUnique(a[1..], b[1..]);
      assert a == [a[0]] + a[1..] && b == [b[0]] + b[1..];
    }
  }

  lemma TailMembers(a: seq<Location>)
    requires a != [] && Increasing(a)
    ensures Increasing(a[1..]) && forall l :: l in a[1..] <==> l in a && l != a[0]
  {
    hide Before;
    forall i | 0 < i < |a|
      ensures a[i] != a[0]
    {
      BeforeIsOneWay(a[0], a[i]);
    }
    assert a == [a[0]] + a[1..];
  }

  // ----- Why a walk stops -----

  /** What is wrong at p, for each way to stop. */
  ghost predicate Wrong(t: Tree, listing: Listing, p: Location, e: WalkError)
  {
    match e
    case BadName => exists n :: n in listing(p) && (!IsUtf8(n) || BACKSLASH in n)
    case DuplicateName => !NoRepeats(listing(p))
    case Vanished => p !in t
    case WrongMode => p in t && t[p].Dir? && t[p].mode != 0x1ED
    case NotPlainFile => p in t && t[p].Regular? && (t[p].links != 1 || t[p].mode != 0x1A4)
    case Unsupported => p in t && t[p].Other?
    case BadPath => !ValidRelativePath(Render(p)) || |Render(p)| >= U32_LIMIT
  }

  /** What a tree must be for its walk to succeed, entry by entry. */
  lemma NormalisedMeans(t: Tree)
    ensures Normalised(t) <==>
            forall l :: l in t ==>
              && (l != [] ==> IsUtf8(l[|l| - 1]) && 0x5C !in l[|l| - 1])
              && (t[l] == Dir(0x1ED) || (t[l].Regular? && t[l] == Regular(0x1A4, 1, t[l].content)))
              && |Render(l)| < 0x1_0000_0000
  {
    hide Render, IsUtf8;
    forall l | l in t
      ensures Normal(t, l) <==> && (l != [] ==> IsUtf8(l[|l| - 1]) && 0x5C !in l[|l| - 1])
                                && (t[l] == Dir(0x1ED) || (t[l].Regular? && t[l] == Regular(0x1A4, 1, t[l].content)))
                                && |Render(l)| < 0x1_0000_0000
    {
    }
  }

  lemma EntryIsWrong(t: Tree, listing: Listing, p: Location)
    requires EntryError(t, p).Some?
    ensures Wrong(t, listing, p, EntryError(t, p).value)
  {
  }

  lemma NamesAreWrong(t: Tree, listing: Listing, d: Location)
    requires DirectoryNames(listing(d)).BadNames?
    ensures Wrong(t, listing, d, DirectoryNames(listing(d)).error)
  {
    hide SortBy;
    var names := listing(d);
    if NoRepeats(names) {
      SortedNames(names);
    }
  }

  lemma {:induction false} NamesStopSomewhere(t: Tree, listing: Listing, d: Location, names: seq<Name>) returns (p: Location)
    requires WalkNames(t, listing, d, names).Stopped?
    ensures d <= p && Wrong(t, listing, p, WalkNames(t, listing, d, names).error)
    decreases Under(t, d), |names|
  {
    hide EntryError, WalkDirectory, Wrong;
    p := d + [names[0]];
    if EntryError(t, p).Some? {
      EntryIsWrong(t, listing, p);
    } else {
      Present(t, p);
      ChildIsSmaller(t, d, names[0]);
      if t[p].Dir? && WalkDirectory(t, listing, p).Stopped? {
        p := DirectoryStopsSomewhere(t, listing, p);
      } else {
        p := NamesStopSomewhere(t, listing, d, names[1..]);
      }
    }
  }

  lemma Present(t: Tree, p: Location)
    requires EntryError(t, p).None?
    ensures p in t
  {
  }

  lemma {:induction false} DirectoryStopsSomewhere(t: Tree, listing: Listing, d: Location) returns (p: Location)
    requires WalkDirectory(t, listing, d).Stopped?
    ensures d <= p && Wrong(t, listing, p, WalkDirectory(t, listing, d).error)
    decreases Under(t, d), |listing(d)| + 1
  {
    hide DirectoryNames, WalkNames, Wrong;
    p := d;
    var listed := DirectoryNames(listing(d));
    if listed.BadNames? {
      NamesAreWrong(t, listing, d);
    } else {
      p := NamesStopSomewhere(t, listing, d, listed.names);
    }
  }

  /** A walk that stops names something that is wrong with some entry of the tree. */
  lemma WalkStopsForAReason(t: Tree, listing: Listing)
    requires IsDir(t, []) && WalkTree(t, listing).Stopped?
    ensures exists p :: Wrong(t, listing, p, WalkTree(t, listing).error)
  {
    hide WalkDirectory;
    if t[[]].mode != DIRECTORY_MODE {
      assert Wrong(t, listing, [], WrongMode);
    } else {
      var p := DirectoryStopsSomewhere(t, listing, []);
    }
  }
}
