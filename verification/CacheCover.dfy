/**
 Targets the manager accepts although they hide its own mount directory or spell the place of another target, and
 exactly when the next overlay goes wrong because of one.
 */
module CacheCover {
  import opened Bytes
  import opened Utf8
  import opened Snapshot
  import opened Paths
  import opened CacheProtocol
  import opened CacheKernel
  import opened CacheManager
  import opened CacheInvariant
  import opened CacheOverlays
  import opened CachePipeline
  import opened CacheUndo

  // ----- Binding when every call succeeds -----

  /** The overlay that is mounted, for the table it is mounted on. */
  function NewOverlay(ms: seq<Mount>, id: Text, key: Text, binding: Text, target: Text): (m: Mount)
    ensures m.OverlayOn?
  {
    OverlayOn(TargetPlace(target), LowerOf(ms + [Plain(StagingDir(binding))], MountDir(id)), id, key)
  }

  function AfterBind(s: System, id: Text, binding: Text, target: Text): (r: System)
    requires id in s.manager.images
  {
    var image := s.manager.images[id];
    var overlay := NewOverlay(s.kernel.mounts, id, image.key, binding, target);
    System(s.kernel.(mounts := s.kernel.mounts + [Plain(StagingDir(binding)), overlay]),
           Manager(s.manager.images[id := image.(overlays := image.overlays + [Overlay(binding, target)])],
                   s.manager.bindings + {binding}, s.manager.targets + {target}))
  }

  predicate CanBind(s: System, id: Text, binding: Text, target: Text)
  {
    && id in s.manager.images && s.manager.images[id].phase == Validated
    && binding !in s.manager.bindings && target !in s.manager.targets && AcceptableTarget(target)
    && NoneAt(s.kernel.mounts, StagingDir(binding))
  }

  lemma QuietBind(s: System, id: Text, binding: Text, target: Text, d: Device)
    requires CanBind(s, id, binding, target)
    ensures BindOverlay(s, id, binding, target, Quiet(d))
         == (AfterBind(s, id, binding, target), Answer(Ready(MountsOverlay, id, Some(binding), None, None)))
  {
    hide StagingDir, TargetPlace, MountDir, LowerOf, MountCacheOverlay, AcceptableTarget;
    QuietMount(s.kernel, id, s.manager.images[id].key, binding, target, d);
    var ms, st := s.kernel.mounts, Plain(StagingDir(binding));
    var m := NewOverlay(ms, id, s.manager.images[id].key, binding, target);
    assert ms + [st] + [m] == ms + [st, m];
  }

  lemma CanBindNext(s: System, id1: Text, b1: Text, t1: Text, id2: Text, b2: Text, t2: Text)
    requires CanBind(s, id1, b1, t1) && CanBind(s, id2, b2, t2) && b1 != b2 && t1 != t2
    ensures CanBind(AfterBind(s, id1, b1, t1), id2, b2, t2)
  {
    hide StagingDir, TargetPlace, MountDir, LowerOf, AcceptableTarget;
    if StagingDir(b1) == StagingDir(b2) { StagingDirInjective(b1, b2); }
    TargetIsNotStaging(t1, b2);
  }

  // ----- The exact condition -----

  lemma PathsBelow(p: Location, id: Text)
    requires !(CACHE_ROOT <= p)
    ensures p <= SourcePath(id) <==> p <= CACHE_ROOT
  {
    if p <= SourcePath(id) {
      PrefixOfSourcePath(p, id);
    }
  }

  /**
   Two overlays mounted one after the other, for the same image or for different ones, with every system call
   succeeding: the second shows its image's tree if and only if the first one's target does not lie on the way to the
   cache directory.
   */
  lemma SecondOverlayIsRightIff(s: System, id1: Text, b1: Text, t1: Text, id2: Text, b2: Text, t2: Text, d: Device)
    requires CanBind(s, id1, b1, t1) && CanBind(s, id2, b2, t2) && b1 != b2 && t1 != t2
    requires Uncovered(s.kernel.mounts) && FrozenMount(id2, s.manager.images[id2].device) in s.kernel.mounts
    ensures var s1 := BindOverlay(s, id1, b1, t1, Quiet(d)).0;
            var (s2, reply) := BindOverlay(s1, id2, b2, t2, Quiet(d));
            var overlay := NewOverlay(s1.kernel.mounts, id2, s.manager.images[id2].key, b2, t2);
            && reply == Answer(Ready(MountsOverlay, id2, Some(b2), None, None))
            && s2.kernel.mounts == s1.kernel.mounts + [Plain(StagingDir(b2)), overlay]
            && (overlay.lower == SourceOf(s.manager.images[id2].device) <==> Clear(t1))
  {
    hide StagingDir, TargetPlace, MountDir, SourcePath, LowerOf, BindOverlay, Uncovered, CanBind;
    CanBindFacts(s, id1, b1, t1);
    CanBindFacts(s, id2, b2, t2);
    QuietBind(s, id1, b1, t1, d);
    CanBindNext(s, id1, b1, t1, id2, b2, t2);
    var s1, ms := AfterBind(s, id1, b1, t1), s.kernel.mounts;
    var cover := NewOverlay(ms, id1, s.manager.images[id1].key, b1, t1);
    QuietBind(s1, id2, b2, t2, d);
    assert s1.kernel.mounts + [Plain(StagingDir(b2))] == ms + [Plain(StagingDir(b1)), cover, Plain(StagingDir(b2))];
    LowerUnderCover(ms, id2, s.manager.images[id2].device, b1, cover, b2);
    PathsBelow(TargetPlace(t1), id2);
  }

  lemma CanBindFacts(s: System, id: Text, binding: Text, target: Text)
    requires CanBind(s, id, binding, target)
    ensures id in s.manager.images && !(CACHE_ROOT <= TargetPlace(target)) && !(OVERLAY_ROOT <= TargetPlace(target))
  {
  }

  lemma LowerUnderCover(ms: seq<Mount>, id: Text, d: Device, b1: Text, cover: Mount, b2: Text)
    requires Uncovered(ms) && FrozenMount(id, d) in ms && cover.OverlayOn?
    ensures LowerOf(ms + [Plain(StagingDir(b1)), cover, Plain(StagingDir(b2))], MountDir(id)) == SourceOf(d)
            <==> !(cover.point <= SourcePath(id))
  {
    hide StagingDir, MountDir, SourcePath, Top;
    var ns := ms + [Plain(StagingDir(b1)), cover, Plain(StagingDir(b2))];
    var p := SourcePath(id);
    StagingIsApart(b1, id);
    StagingIsApart(b2, id);
    SourcePathIs(id);
    var i :| 0 <= i < |ms| && ms[i] == FrozenMount(id, d);
    TowardsSource(MountDir(id), id);
    if cover.point <= p {
      TopIs(ns, p, |ms| + 1);
    } else {
      forall j | i < j < |ns|
        ensures !(ns[j].point <= p)
      {
        if j < |ms| {
          assert ns[j] == ms[j];
        }
      }
      TopIs(ns, p, i);
    }
  }

  // ----- Concrete targets -----

  lemma {:induction false} StepsOfNames(l: Location)
    requires forall i :: 0 <= i < |l| ==> l[i] != [] && l[i] != [DOT]
    ensures Steps(l) == l
  {
    if l != [] {
      StepsOfNames(l[1..]);
      assert l == [l[0]] + l[1..];
    }
  }

  /** The plain spelling of a location names that location. */
  lemma SpelledTarget(l: Location)
    requires l != [] && forall i :: 0 <= i < |l| ==> FileName(l[i])
    ensures TargetPlace([SLASH] + Render(l)) == l
    ensures [DOT, DOT] !in Split([SLASH] + Render(l))
  {
    hide Split, Render;
    NamesAreComponents(l);
    SplitRender(l);
    SplitRooted(Render(l));
    StepsOfNames(l);
  }

  /**
   The target spelled by any components, empty ones and dots included: it is accepted exactly if it is more than a slash,
   takes no step up, and names a place neither at nor below /tmp/lsb/cache-images or /mnt/.overlay.
   */
  lemma TargetsAccepted(cs: seq<Name>)
    requires cs != [] && forall i :: 0 <= i < |cs| ==> SLASH !in cs[i]
    ensures AcceptableTarget([SLASH] + Render(cs)) <==>
            && cs != [[]] && [DOT, DOT] !in cs
            && !([Ascii("tmp"), Ascii("lsb"), Ascii("cache-images")] <= Steps(cs)) && !([Ascii("mnt"), Ascii(".overlay")] <= Steps(cs))
  {
    hide Split, Steps;
    SplitRender(cs);
    SplitRooted(Render(cs));
    assert [DOT, DOT] in [[]] + cs <==> [DOT, DOT] in cs;
    if cs == [[]] {
      assert Render(cs) == [];
    } else if [SLASH] + Render(cs) == [SLASH] {
      assert Render(cs) == [];
      EmptySpelling(cs);
    }
  }

  lemma EmptySpelling(cs: seq<Name>)
    requires cs != [] && Render(cs) == []
    ensures cs == [[]]
  {
  }

  const TMP: Location := [Ascii("tmp")]

  /** The target "/tmp" is accepted, and it hides the cache directory. */
  lemma TmpIsAcceptedAndCovers()
    ensures var target := [SLASH] + Render(TMP);
            AcceptableTarget(target) && TargetPlace(target) == TMP && !Clear(target)
  {
    var target := [SLASH] + Render(TMP);
    assert FileName(Ascii("tmp")) by {
      assert Ascii("tmp")[0] == 0x74 && Ascii("tmp")[1] == 0x6D && Ascii("tmp")[2] == 0x70;
    }
    SpelledTarget(TMP);
    assert Ascii("tmp")[0] != Ascii("mnt")[0];
    assert TMP[0] != OVERLAY_ROOT[0];
    assert CACHE_ROOT[..1] == TMP;
  }

  lemma SplitRooted(p: Path)
    ensures Split([SLASH] + p) == [[]] + Split(p)
    ensures Steps([[]] + Split(p)) == Steps(Split(p))
  {
    assert ([SLASH] + p)[1..] == p;
    assert ([[]] + Split(p))[1..] == Split(p);
  }

  lemma StepsOfGap(l: Location)
    requires forall i :: 0 <= i < |l| ==> l[i] != [] && l[i] != [DOT]
    ensures Steps(l + [[]]) == l
  {
    var gap: Location := [[]];
    StepsOfNames(l);
    StepsConcat(l, gap);
    assert gap[1..] == [] && Steps(gap) == [] && l + [] == l;
  }

  lemma SlashedTarget(l: Location)
    requires l != [] && forall i :: 0 <= i < |l| ==> FileName(l[i])
    ensures var target := [SLASH] + Render(l + [[]]);
            TargetPlace(target) == l && [DOT, DOT] !in Split(target)
  {
    hide FileName, Split, Render, Steps;
    NamesAreComponents(l);
    SlashedSplit(l);
    SplitRooted(Render(l + [[]]));
    StepsOfGap(l);
  }

  lemma SlashMakesADifference(l: Location)
    requires l != [] && Components(l)
    ensures [SLASH] + Render(l + [[]]) != [SLASH] + Render(l)
  {
    hide Split, Render;
    SlashedSplit(l);
    SplitRender(l);
    assert ([SLASH] + Render(l + [[]]))[1..] == Render(l + [[]]) && ([SLASH] + Render(l))[1..] == Render(l);
    assert |Split(Render(l + [[]]))| != |Split(Render(l))|;
  }

  lemma NamesAreComponents(l: Location)
    requires forall i :: 0 <= i < |l| ==> FileName(l[i])
    ensures Components(l) && forall i :: 0 <= i < |l| ==> l[i] != [] && l[i] != [DOT] && l[i] != [DOT, DOT]
  {
  }

  /** A trailing slash spells the same place differently, so distinct target strings need not be distinct places. */
  lemma AliasedTargets(l: Location)
    requires l != [] && forall i :: 0 <= i < |l| ==> FileName(l[i])
    requires GoodPlace(l)
    ensures var plain := [SLASH] + Render(l);
            var slashed := [SLASH] + Render(l + [[]]);
            && plain != slashed && TargetPlace(plain) == TargetPlace(slashed)
            && AcceptableTarget(plain) && AcceptableTarget(slashed) && Clear(plain) && Clear(slashed)
  {
    hide TargetPlace, Split, FileName, Render, GoodPlace;
    SpelledTarget(l);
    SlashedTarget(l);
    NamesAreComponents(l);
    SlashMakesADifference(l);
    NotJustASlash(l);
    NotJustASlash(l + [[]]);
    OutsideTheRoots(l);
  }

  lemma NotJustASlash(l: Location)
    requires l != [] && l[0] != []
    ensures [SLASH] + Render(l) != [SLASH]
  {
  }

  lemma OutsideTheRoots(p: Location)
    requires GoodPlace(p)
    ensures !(CACHE_ROOT <= p) && !(OVERLAY_ROOT <= p) && !(p <= CACHE_ROOT)
  {
  }

  lemma {:induction false} StepsConcat(a: seq<Name>, b: seq<Name>)
    ensures Steps(a + b) == Steps(a) + Steps(b)
  {
    if a == [] {
      assert a + b == b;
    } else {
      assert (a + b)[0] == a[0] && (a + b)[1..] == a[1..] + b;
      StepsConcat(a[1..], b);
    }
  }

  lemma {:induction false} SlashedSplit(l: Location)
    requires l != [] && Components(l)
    ensures Split(Render(l + [[]])) == l + [[]]
  {
    var m := l + [[]];
    assert m[1..] == l[1..] + [[]];
    if |l| == 1 {
      assert m[1..] == [[]];
      SplitComponent(l[0], []);
      assert Split([]) == [[]];
    } else {
      SlashedSplit(l[1..]);
      SplitComponent(l[0], Render(m[1..]));
    }
  }
}
