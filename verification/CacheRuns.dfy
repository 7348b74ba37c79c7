/** Whole runs of the cache manager, under any sequence of requests and any behaviour of the system calls. */
module CacheRuns {
  import opened Bytes
  import opened SourceTree
  import opened TreeHash
  import opened CacheProtocol
  import opened CacheKernel
  import opened CacheManager
  import opened CacheInvariant
  import opened CacheRegistry

  datatype Ask = Ask(request: Request, data: seq<byte>, os: Script)

  const NO_IMAGES := Manager(map[], {}, {})

  function Serve(env: Env, s: System, ask: Ask): (r: (System, Reply))
  {
    Handle(env, s, ask.request, ask.data, ask.os)
  }

  function Run(env: Env, s: System, asks: seq<Ask>): (r: System)
    decreases |asks|
  {
    if asks == [] then s else Serve(env, Run(env, s, asks[..|asks| - 1]), asks[|asks| - 1]).0
  }

  function Replies(env: Env, s: System, asks: seq<Ask>): (r: seq<Reply>)
    decreases |asks|
  {
    if asks == [] then []
    else
      var before := asks[..|asks| - 1];
      Replies(env, s, before) + [Serve(env, Run(env, s, before), asks[|asks| - 1]).1]
  }

  lemma RunNothing(env: Env, s: System)
    ensures Run(env, s, []) == s && Replies(env, s, []) == []
  {
  }

  lemma RunOne(env: Env, s: System, ask: Ask)
    ensures Run(env, s, [ask]) == Serve(env, s, ask).0 && Replies(env, s, [ask]) == [Serve(env, s, ask).1]
  {
    hide Serve;
    assert [ask][..0] == [];
    RunNothing(env, s);
  }

  /** A run continued is a run from where the first part ended. */
  lemma {:induction false} RunConcat(env: Env, s: System, a: seq<Ask>, b: seq<Ask>)
    ensures Run(env, s, a + b) == Run(env, Run(env, s, a), b)
    ensures Replies(env, s, a + b) == Replies(env, s, a) + Replies(env, Run(env, s, a), b)
    decreases |b|
  {
    hide Serve;
    if b == [] {
      assert a + b == a;
    } else {
      var n := |b| - 1;
      assert (a + b)[..|a + b| - 1] == a + b[..n] && (a + b)[|a + b| - 1] == b[n];
      RunConcat(env, s, a, b[..n]);
    }
  }

  // ----- Validated images -----

  lemma {:induction false} RunKeepsInv(env: Env, s: System, asks: seq<Ask>)
    requires Inv(env, s)
    ensures Inv(env, Run(env, s, asks))
    decreases |asks|
  {
    hide Inv, Handle;
    if asks != [] {
      var before, ask := asks[..|asks| - 1], asks[|asks| - 1];
      RunKeepsInv(env, s, before);
      HandleKeepsInv(env, Run(env, s, before), ask.request, ask.data, ask.os);
    }
  }

  /**
   In every run from an empty registry, whatever the system calls do: an image in phase Validated is mounted
   read-only at its directory, and the tree on its device has the key the host expects.
   */
  lemma ValidatedMeansFrozenWithKey(env: Env, k: Kernel, asks: seq<Ask>, id: Text)
    requires Coherent(k.mounts)
    requires id in Run(env, System(k, NO_IMAGES), asks).manager.images
    requires Run(env, System(k, NO_IMAGES), asks).manager.images[id].phase == Validated
    ensures var s := Run(env, System(k, NO_IMAGES), asks);
            FrozenMount(id, s.manager.images[id].device) in s.kernel.mounts
            && HasKey(env, s.kernel, s.manager.images[id].device, s.manager.images[id].key)
  {
    hide Run, HasKey;
    assert Inv(env, System(k, NO_IMAGES));
    RunKeepsInv(env, System(k, NO_IMAGES), asks);
    TrackedIsOk(env, Run(env, System(k, NO_IMAGES), asks), id);
  }

  /** A tree on a device with the host's key is the host's tree, unless the two streams are a hash collision. */
  lemma KeyedDeviceHoldsTheHostTree(env: Env, k: Kernel, d: Device, key: Text, host: Tree, hostLists: Listing)
    requires HasKey(env, k, d, key)
    requires TreeKey(env.hash, host, hostLists) == Some(key) && WellFormed(host) && Honest(host, hostLists)
    requires var t := k.devices[d].content.source.value; WellFormed(t) && Honest(t, env.lists(t))
    ensures var t := k.devices[d].content.source.value;
            t == host || Collision(env.hash, TreeStream(t, env.lists(t)).value, TreeStream(host, hostLists).value)
  {
    var t := k.devices[d].content.source.value;
    KeyDeterminesTree(env.hash, t, host, env.lists(t), hostLists);
  }

  // ----- Phases -----

  /** An image that is validated and still tracked after a request is still the same validated image. */
  predicate Continues(before: Image, after: Image)
  {
    && after.phase == Validated
    && after.device == before.device && after.key == before.key && after.size == before.size
    && before.overlays <= after.overlays
  }

  lemma ValidatedStaysValidated(env: Env, s: System, ask: Ask, id: Text)
    requires id in s.manager.images && s.manager.images[id].phase == Validated
    requires id in Serve(env, s, ask).0.manager.images
    ensures Continues(s.manager.images[id], Serve(env, s, ask).0.manager.images[id])
  {
    hide Handle;
    var ch := HandleExplains(env, s, ask.request, ask.data, ask.os);
  }

  lemma {:induction false} ValidatedUntilForgotten(env: Env, s: System, asks: seq<Ask>, id: Text)
    requires id in s.manager.images && s.manager.images[id].phase == Validated
    requires forall n :: 0 <= n <= |asks| ==> id in Run(env, s, asks[..n]).manager.images
    ensures id in Run(env, s, asks).manager.images
    ensures Continues(s.manager.images[id], Run(env, s, asks).manager.images[id])
    decreases |asks|
  {
    hide Serve;
    assert asks[..|asks|] == asks;
    if asks != [] {
      var before := asks[..|asks| - 1];
      forall n | 0 <= n <= |before|
        ensures id in Run(env, s, before[..n]).manager.images
      {
        assert before[..n] == asks[..n];
      }
      ValidatedUntilForgotten(env, s, before, id);
      ValidatedStaysValidated(env, Run(env, s, before), asks[|asks| - 1], id);
    }
  }

  // ----- The registry -----

  predicate Live(m: Manager, id: Text, i: nat)
  {
    id in m.images && i < |m.images[id].overlays|
  }

  function At(m: Manager, id: Text, i: nat): (o: Overlay)
    requires Live(m, id, i)
  {
    m.images[id].overlays[i]
  }

  /** Live overlays are reserved, and no two share a binding or a target. */
  ghost predicate Registered(m: Manager)
  {
    && (forall id, i :: Live(m, id, i) ==> At(m, id, i).binding in m.bindings && At(m, id, i).target in m.targets)
    && (forall id, i, jd, j :: Live(m, id, i) && Live(m, jd, j) && (id != jd || i != j) ==>
          At(m, id, i).binding != At(m, jd, j).binding && At(m, id, i).target != At(m, jd, j).target)
  }

  /** Nothing else is reserved. */
  ghost predicate Exact(m: Manager)
  {
    && (forall b :: b in m.bindings ==> exists id, i :: Live(m, id, i) && At(m, id, i).binding == b)
    && (forall t :: t in m.targets ==> exists id, i :: Live(m, id, i) && At(m, id, i).target == t)
  }

  lemma BoundKeepsRegistered(m: Manager, n: Manager, id: Text, o: Overlay)
    requires Registered(m) && Changes(m, n, id, Bound(o))
    ensures Registered(n)
  {
    var last := |m.images[id].overlays|;
    forall x, i | Live(n, x, i)
      ensures if x == id && i == last then At(n, x, i) == o else Live(m, x, i) && At(n, x, i) == At(m, x, i)
    {
    }
  }

  lemma ChangeKeepsRegistered(m: Manager, n: Manager, id: Text, ch: Change)
    requires Registered(m) && Changes(m, n, id, ch)
    ensures Registered(n)
  {
    if ch.Bound? {
      BoundKeepsRegistered(m, n, id, ch.overlay);
    } else {
      forall x, i | Live(n, x, i)
        ensures Live(m, x, i) && At(n, x, i) == At(m, x, i)
      {
      }
      if ch.RolledBack? {
        forall x, i | Live(n, x, i)
          ensures At(n, x, i).binding in n.bindings && At(n, x, i).target in n.targets
        {
          ReservedByOthers(m, n, id, x, i);
        }
      }
    }
  }

  lemma ReservedByOthers(m: Manager, n: Manager, id: Text, x: Text, i: nat)
    requires Registered(m) && id in m.images && Released(m, n, m.images[id].overlays) && x != id && Live(m, x, i)
    ensures At(m, x, i).binding in n.bindings && At(m, x, i).target in n.targets
  {
    var o, mine := At(m, x, i), m.images[id].overlays;
    assert o.binding in m.bindings && o.target in m.targets;
    forall j: nat | j < |mine|
      ensures mine[j].binding != o.binding && mine[j].target != o.target
    {
      assert Live(m, id, j) && At(m, id, j) == mine[j];
    }
  }

  lemma {:induction false} RegistryHolds(env: Env, k: Kernel, asks: seq<Ask>)
    ensures Registered(Run(env, System(k, NO_IMAGES), asks).manager)
    decreases |asks|
  {
    hide Handle, Registered, Changes;
    if asks == [] {
      EmptyRegistry();
    } else {
      var before, ask := asks[..|asks| - 1], asks[|asks| - 1];
      RegistryHolds(env, k, before);
      var s := Run(env, System(k, NO_IMAGES), before);
      var ch := HandleExplains(env, s, ask.request, ask.data, ask.os);
      ChangeKeepsRegistered(s.manager, Serve(env, s, ask).0.manager, ask.request.image, ch);
    }
  }

  lemma EmptyRegistry()
    ensures Registered(NO_IMAGES) && Exact(NO_IMAGES)
  {
  }

  lemma ChangeKeepsExact(m: Manager, n: Manager, id: Text, ch: Change)
    requires Registered(m) && Exact(m) && Changes(m, n, id, ch) && ch != RolledBack(false)
    ensures Exact(n)
  {
    forall b | b in n.bindings
      ensures exists x, i :: Live(n, x, i) && At(n, x, i).binding == b
    {
      if ch.Bound? && b == ch.overlay.binding {
        var last := |m.images[id].overlays|;
        assert Live(n, id, last) && At(n, id, last).binding == b;
      } else {
        assert b in m.bindings;
        var x, i :| Live(m, x, i) && At(m, x, i).binding == b;
        StillLive(m, n, id, ch, x, i);
        assert At(n, x, i).binding == b;
      }
    }
    forall t | t in n.targets
      ensures exists x, i :: Live(n, x, i) && At(n, x, i).target == t
    {
      if ch.Bound? && t == ch.overlay.target {
        var last := |m.images[id].overlays|;
        assert Live(n, id, last) && At(n, id, last).target == t;
      } else {
        assert t in m.targets;
        var x, i :| Live(m, x, i) && At(m, x, i).target == t;
        StillLive(m, n, id, ch, x, i);
        assert At(n, x, i).target == t;
      }
    }
  }

  lemma StillLive(m: Manager, n: Manager, id: Text, ch: Change, x: Text, i: nat)
    requires Changes(m, n, id, ch) && ch != RolledBack(false) && Live(m, x, i)
    requires At(m, x, i).binding in n.bindings || At(m, x, i).target in n.targets
    ensures Live(n, x, i) && At(n, x, i) == At(m, x, i)
  {
  }

  /** When no rollback of an image has failed, the reservations are exactly the live overlays. */
  lemma {:induction false} RegistryIsExact(env: Env, k: Kernel, asks: seq<Ask>)
    requires Failed(RollbackFailed) !in Replies(env, System(k, NO_IMAGES), asks)
    ensures Exact(Run(env, System(k, NO_IMAGES), asks).manager)
    decreases |asks|
  {
    hide Handle, Registered, Exact, Changes;
    if asks == [] {
      EmptyRegistry();
    } else {
      var start := System(k, NO_IMAGES);
      var before, ask := asks[..|asks| - 1], asks[|asks| - 1];
      var replies := Replies(env, start, asks);
      assert forall r :: r in Replies(env, start, before) ==> r in replies;
      RegistryIsExact(env, k, before);
      RegistryHolds(env, k, before);
      var s := Run(env, start, before);
      assert replies[|replies| - 1] == Serve(env, s, ask).1;
      var ch := HandleExplains(env, s, ask.request, ask.data, ask.os);
      ChangeKeepsExact(s.manager, Serve(env, s, ask).0.manager, ask.request.image, ch);
    }
  }

  /** A rejection leaves its image untracked, with every binding and target it had released. */
  lemma RejectionReleases(env: Env, s: System, ask: Ask)
    requires var reply := Serve(env, s, ask).1; reply.Answer? && reply.response.Rejected?
    ensures var id, n := ask.request.image, Serve(env, s, ask).0.manager;
            id !in n.images && (id in s.manager.images ==> AllReleased(n, s.manager.images[id].overlays))
  {
    hide Handle;
    var ch := HandleExplains(env, s, ask.request, ask.data, ask.os);
  }

  /** Every answer passes the validation the guest and the host apply to it. */
  lemma AnswersAreValid(env: Env, s: System, ask: Ask)
    requires Serve(env, s, ask).1.Answer?
    ensures ValidFor(Serve(env, s, ask).1.response, ask.request)
  {
    hide Handle, ValidFor;
    var ch := HandleExplains(env, s, ask.request, ask.data, ask.os);
  }
}
