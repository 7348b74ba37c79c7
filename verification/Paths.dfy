/** Relative paths as component lists, and their '/'-separated spelling. */
module Paths {
  import opened Bytes
  import opened Snapshot

  type Name = seq<byte>

  /** The root is the empty location. */
  type Location = seq<Name>

  predicate Component(n: Name)
  {
    n != [] && SLASH !in n
  }

  /** A name a directory can hold, other than its own and its parent's entry. */
  predicate FileName(n: Name)
  {
    Component(n) && 0 !in n && n != [DOT] && n != [DOT, DOT]
  }

  predicate Components(l: Location)
  {
    forall i :: 0 <= i < |l| ==> Component(l[i])
  }

  /** Every name is a file name without a backslash. */
  predicate Portable(l: Location)
  {
    forall i :: 0 <= i < |l| ==> FileName(l[i]) && BACKSLASH !in l[i]
  }

  function Parent(l: Location): (r: Location)
    requires l != []
  {
    l[..|l| - 1]
  }

  function Render(l: Location): (p: Path)
  {
    if l == [] then [] else if |l| == 1 then l[0] else l[0] + [SLASH] + Render(l[1..])
  }

  // ----- Spelling and splitting are inverse -----

  lemma {:induction false} SplitComponent(n: Name, rest: Path)
    requires SLASH !in n
    ensures Split(n) == [n]
    ensures Split(n + [SLASH] + rest) == [n] + Split(rest)
  {
    var p := n + [SLASH] + rest;
    if n == [] {
      assert p[0] == SLASH && p[1..] == rest;
    } else {
      SplitComponent(n[1..], rest);
      assert p[0] == n[0] && p[1..] == n[1..] + [SLASH] + rest;
      assert [n[0]] + n[1..] == n;
    }
  }

  lemma {:induction false} SplitRender(l: Location)
    requires l != [] && forall i :: 0 <= i < |l| ==> SLASH !in l[i]
    ensures Split(Render(l)) == l
  {
    hide Split;
    if |l| == 1 {
      SplitComponent(l[0], []);
      assert l == [l[0]];
    } else {
      SplitRender(l[1..]);
      SplitComponent(l[0], Render(l[1..]));
      assert [l[0]] + l[1..] == l;
    }
  }

  lemma {:induction false} RenderSplit(p: Path)
    ensures Render(Split(p)) == p
    ensures forall i :: 0 <= i < |Split(p)| ==> SLASH !in Split(p)[i]
  {
    if p != [] {
      var rest := Split(p[1..]);
      RenderSplit(p[1..]);
      var s := Split(p);
      if p[0] == SLASH {
        assert s[1..] == rest;
        assert Render(s) == [] + [SLASH] + Render(rest);
      } else {
        assert s[1..] == rest[1..];
        assert Render(s) == [p[0]] + Render(rest);
      }
    }
  }

  lemma RenderInjective(l: Location, m: Location)
    requires Components(l) && Components(m) && Render(l) == Render(m)
    ensures l == m
  {
    if l != [] { SplitRender(l); }
    if m != [] { SplitRender(m); }
  }

  // ----- Which paths the encoder accepts -----

  lemma {:induction false} RenderedBytes(l: Location, b: byte)
    requires b != SLASH
    ensures b in Render(l) <==> exists i :: 0 <= i < |l| && b in l[i]
  {
    if |l| > 1 {
      RenderedBytes(l[1..], b);
      assert forall i :: 1 <= i < |l| ==> l[i] == l[1..][i - 1];
      assert b in Render(l[1..]) ==> exists i :: 0 <= i < |l| && b in l[i] by {
        if b in Render(l[1..]) {
          var i :| 0 <= i < |l[1..]| && b in l[1..][i];
          assert b in l[i + 1];
        }
      }
    }
  }

  lemma {:induction false} RenderedShape(l: Location)
    requires l != [] && Components(l)
    ensures var p := Render(l);
            p != [] && p[0] != SLASH && p[|p| - 1] != SLASH && !HasDoubleSlash(p)
  {
    if |l| > 1 {
      RenderedShape(l[1..]);
    }
  }

  /** A record path is accepted exactly if it is the root or spells a portable location. */
  lemma RecordPathsAreLocations(p: Path)
    ensures ValidRelativePath(p) <==> p == [] || Portable(Split(p))
  {
    RenderSplit(p);
    var l := Split(p);
    RenderedBytes(l, 0);
    RenderedBytes(l, BACKSLASH);
    if Portable(l) {
      assert Components(l);
      RenderedShape(l);
    }
    if p == [] {
      assert Split([]) == [[]] && !UnsafeComponent([]);
    } else if ValidRelativePath(p) {
      NoEmptyComponents(p);
      forall i | 0 <= i < |l|
        ensures FileName(l[i]) && BACKSLASH !in l[i]
      {
        assert l[i] in l;
      }
    }
  }

  /** A path without slashes at its ends or next to each other has no empty components. */
  lemma {:induction false} NoEmptyComponents(p: Path)
    requires p != [] && p[0] != SLASH && p[|p| - 1] != SLASH && !HasDoubleSlash(p)
    ensures forall i :: 0 <= i < |Split(p)| ==> Split(p)[i] != []
    decreases |p|
  {
    if |p| > 1 {
      var q := p[1..];
      assert forall i :: 0 <= i < |q| ==> q[i] == p[i + 1];
      if p[1] == SLASH {
        var r := q[1..];
        assert forall i :: 0 <= i < |r| ==> r[i] == p[i + 2];
        assert p[1] == SLASH && |r| > 0 && r[0] != SLASH;
        NoEmptyComponents(r);
        assert Split(q) == [[]] + Split(r);
      } else {
        NoEmptyComponents(q);
      }
    } else {
      assert p[1..] == [];
    }
  }

  /** The encoder accepts exactly the spellings of portable locations. */
  lemma RenderAccepted(l: Location)
    requires forall i :: 0 <= i < |l| ==> FileName(l[i])
    ensures ValidRelativePath(Render(l)) <==> Portable(l)
  {
    if l == [] {
      assert Split([]) == [[]];
      assert !UnsafeComponent([]);
    } else {
      SplitRender(l);
      RenderedShape(l);
      RenderedBytes(l, 0);
      assert forall i :: 0 <= i < |l| && BACKSLASH in l[i] ==> l[i] in Split(Render(l));
    }
  }
}
