/** The guest mux theorems: what holds in every run and every interleaving. */
module MuxTheorems {
  import opened Bytes
  import opened MuxCodec
  import opened Mux
  import opened MuxRuns
  import opened MuxInvariant

  // ----- Frame order -----

  /** What one opening of a session id looks like on the wire. */
  datatype Life = Refused(reason: seq<byte>) | Served(credit: u32, body: seq<MuxFrame>, finished: bool)

  function RenderLife(id: u64, life: Life): (r: seq<MuxFrame>)
  {
    match life
    case Refused(reason) => [OpenErr(id, reason)]
    case Served(credit, body, finished) => [OpenOk(id, credit)] + body + (if finished then [Fin(id)] else [])
  }

  function Render(id: u64, lives: seq<Life>): (r: seq<MuxFrame>)
  {
    if lives == [] then [] else Render(id, lives[..|lives| - 1]) + RenderLife(id, lives[|lives| - 1])
  }

  ghost predicate LifeOk(id: u64, life: Life)
  {
    life.Served? ==> forall f :: f in life.body ==> f.id == id && (f.Data? || f.Window?)
  }

  /** A sequence of lives in which only the last may still be running. */
  ghost predicate LivesOk(id: u64, lives: seq<Life>)
  {
    && (forall i :: 0 <= i < |lives| ==> LifeOk(id, lives[i]))
    && (forall i :: 0 <= i < |lives| - 1 ==> lives[i].Served? ==> lives[i].finished)
  }

  ghost predicate Running(lives: seq<Life>)
  {
    lives != [] && lives[|lives| - 1].Served? && !lives[|lives| - 1].finished
  }

  function Project(fs: seq<MuxFrame>, id: u64): (r: seq<MuxFrame>)
  {
    if fs == [] then []
    else Project(fs[..|fs| - 1], id) + (if fs[|fs| - 1].id == id then [fs[|fs| - 1]] else [])
  }

  lemma ProjectSnoc(fs: seq<MuxFrame>, f: MuxFrame, id: u64)
    ensures Project(fs + [f], id) == Project(fs, id) + (if f.id == id then [f] else [])
  {
    assert (fs + [f])[..|fs|] == fs;
  }

  lemma RenderSnoc(id: u64, lives: seq<Life>, life: Life)
    ensures Render(id, lives + [life]) == Render(id, lives) + RenderLife(id, life)
  {
    assert (lives + [life])[..|lives|] == lives;
  }

  ghost predicate Describes(id: u64, lives: seq<Life>, fs: seq<MuxFrame>)
  {
    LivesOk(id, lives) && Project(fs, id) == Render(id, lives) && (Scan(fs, id) == Serving <==> Running(lives))
  }

  lemma LifeBegins(fs: seq<MuxFrame>, f: MuxFrame, lives: seq<Life>) returns (r: seq<Life>)
    requires Describes(f.id, lives, fs) && Scan(fs, f.id) == Idle && (f.OpenErr? || f.OpenOk?)
    ensures Describes(f.id, r, fs + [f])
  {
    hide Scan, Render, Project;
    ScanSnoc(fs, f, f.id);
    ProjectSnoc(fs, f, f.id);
    var life := if f.OpenErr? then Refused(f.reason) else Served(f.credit, [], false);
    r := lives + [life];
    RenderSnoc(f.id, lives, life);
    assert RenderLife(f.id, life) == [f];
  }

  lemma LifeContinues(fs: seq<MuxFrame>, f: MuxFrame, lives: seq<Life>) returns (r: seq<Life>)
    requires Describes(f.id, lives, fs) && Scan(fs, f.id) == Serving && (f.Data? || f.Window? || f.Fin?)
    ensures Describes(f.id, r, fs + [f])
  {
    hide Render, Scan, Project;
    ScanSnoc(fs, f, f.id);
    ProjectSnoc(fs, f, f.id);
    var k := |lives| - 1;
    var last, init := lives[k], lives[..k];
    var life := if f.Fin? then last.(finished := true) else last.(body := last.body + [f]);
    r := init + [life];
    assert Render(f.id, r) == Render(f.id, lives) + [f] by {
      assert lives == init + [last];
      RenderSnoc(f.id, init, last);
      RenderSnoc(f.id, init, life);
      assert RenderLife(f.id, life) == RenderLife(f.id, last) + [f];
    }
    assert LivesOk(f.id, r);
  }

  /** A scan that does not break is a sequence of lives. */
  lemma {:induction false} ScanGivesLives(fs: seq<MuxFrame>, id: u64) returns (lives: seq<Life>)
    requires Scan(fs, id) != Broken
    ensures Describes(id, lives, fs)
  {
    if fs == [] {
      return [];
    }
    var n := |fs| - 1;
    var f, before := fs[n], fs[..n];
    assert fs == before + [f];
    lives := ScanGivesLives(before, id);
    if f.id != id {
      assert Project(before, id) + [] == Project(before, id);
    } else if Scan(before, id) == Idle {
      lives := LifeBegins(before, f, lives);
    } else {
      lives := LifeContinues(before, f, lives);
    }
  }

  /**
   The frames handed to the writer for any id are a prefix of
   (OpenErr | OpenOk (Window | Data)* Fin)*, whatever is opened, refused, closed and opened again.
   */
  lemma FramesOfASessionAreOrdered(actions: seq<Action>, id: u64)
    ensures exists lives :: LivesOk(id, lives) && Project(Run(START, actions).Sent(), id) == Render(id, lives)
  {
    Reachable(actions);
    var w := Run(START, actions);
    assert ViewOk(id, ViewOf(w, id));
    var lives := ScanGivesLives(w.Sent(), id);
  }

  /** Every frame handed to the writer encodes, and the host reads back exactly those frames. */
  lemma EmittedFramesReachTheHost(actions: seq<Action>)
    ensures var fs := Run(START, actions).Sent();
            && (forall f :: f in fs ==> Wellformed(f) && EncodeFrame(f).Ok?)
            && Receive(Transmit(fs)) == (fs, true)
  {
    Reachable(actions);
    var fs := Run(START, actions).Sent();
    forall f | f in fs
      ensures Wellformed(f) && EncodeFrame(f).Ok?
    {
      SendableEncodes(f);
    }
    WireRoundTrip(fs);
  }

  // ----- Flow control -----

  /**
   Receive credit is conserved: what was granted and not used, what is buffered and what readers hold
   always add up to the receive queue. Bytes reach readers in the order they arrived.
   */
  lemma ReceiveCreditIsConserved(actions: seq<Action>, id: u64)
    requires var w := Run(START, actions); w.mux.failed.None? && id in w.mux.sessions
    ensures var w := Run(START, actions);
            var s, l := w.mux.sessions[id], w.Ledger(id);
            && (l.granted - |l.received|) + |s.inbound| + Sum(l.inFlight) == RECEIVE_QUEUE_BYTES
            && l.granted == l.announced + Queued(w.mux.control, id)
            && l.received == l.taken + s.inbound
  {
    Reachable(actions);
    var w := Run(START, actions);
    assert ViewOk(id, ViewOf(w, id));
  }

  /** A host that stays within the credit announced to it is never cut off for exceeding it. */
  lemma HostWithinCreditIsNotCutOff(actions: seq<Action>, id: u64, bytes: seq<byte>)
    requires var w := Run(START, actions);
             w.mux.failed.None? && id in w.mux.sessions && |w.Ledger(id).received| + |bytes| <= w.Ledger(id).announced
    ensures Incoming(Run(START, actions).mux, Data(id, bytes)).1.None?
  {
    hide Run, Scan, Queued, LedgerOf, Frames;
    ReceiveCreditIsConserved(actions, id);
    Reachable(actions);
    var w := Run(START, actions);
    assert ViewOk(id, ViewOf(w, id));
  }

  /**
   Send side, in every state: what `write` accepted is what was sent followed by what is queued; the
   bytes sent, queued and still allowed add up to the host's credit; the queue is bounded.
   */
  lemma SendSideIsConserved(actions: seq<Action>, id: u64)
    requires id in Run(START, actions).mux.sessions
    ensures var w := Run(START, actions);
            var s, l := w.mux.sessions[id], w.Ledger(id);
            && l.written == l.sent + Flatten(s.outbound)
            && |l.sent| + s.outboundBytes + s.sendCredit == l.credit
            && s.outboundBytes == |Flatten(s.outbound)| <= SEND_QUEUE_BYTES
            && (forall c :: c in s.outbound ==> 0 < |c| <= MAX_DATA_LEN)
  {
    Reachable(actions);
    var w := Run(START, actions);
    assert ViewOk(id, ViewOf(w, id));
  }

  // ----- Scheduling -----

  /** Queued once, exactly when scheduled, exactly when there is something to send. */
  lemma ReadyMeansWork(actions: seq<Action>, id: u64)
    requires Run(START, actions).mux.failed.None?
    ensures var st := Run(START, actions).mux;
            && NoRepeats(st.ready)
            && (id in st.ready <==> id in st.sessions && st.sessions[id].scheduled)
            && (id in st.ready <==> id in st.sessions && (st.sessions[id].outbound != [] || st.sessions[id].OwesFin()))
  {
    Reachable(actions);
    var w := Run(START, actions);
    assert ViewOk(id, ViewOf(w, id));
  }

  lemma ControlQueueIsBounded(actions: seq<Action>)
    ensures |Run(START, actions).mux.control| <= MAX_CONTROL_FRAMES
  {
    Reachable(actions);
  }

  /**
   No work is stranded: with anything to send, the writer sends at once. Control frames go first;
   otherwise the head of the ready queue sends, so no queued id is ever skipped or found missing.
   */
  lemma WriterNeverSkips(actions: seq<Action>)
    requires Run(START, actions).mux.failed.None?
    ensures var st := Run(START, actions).mux;
            var r := NextFrame(st).1;
            && (r.WriterBlocked? <==> st.control == [] && forall id :: id in st.sessions ==> st.sessions[id].outbound == [] && !st.sessions[id].OwesFin())
            && (st.control != [] ==> r == Emit(st.control[0]))
            && (st.control == [] && st.ready != [] ==> r.Emit? && (r.frame.Data? || r.frame.Fin?) && r.frame.id == st.ready[0])
  {
    Reachable(actions);
    var w := Run(START, actions);
    var st := w.mux;
    if st.control == [] && st.ready != [] {
      ReadyHead(w);
    }
    forall id: u64 | id in st.sessions && (st.sessions[id].outbound != [] || st.sessions[id].OwesFin())
      ensures id in st.ready
    {
      assert ViewOk(id, ViewOf(w, id));
    }
    if st.ready != [] {
      var id := st.ready[0];
      ReadyHead(w);
      assert id in st.sessions && (st.sessions[id].outbound != [] || st.sessions[id].OwesFin());
    }
  }

  /** The Data and Fin frames handed to the writer, in order. */
  function SessionFrames(fs: seq<MuxFrame>): (r: seq<MuxFrame>)
  {
    if fs == [] then []
    else SessionFrames(fs[..|fs| - 1]) + (if fs[|fs| - 1].Data? || fs[|fs| - 1].Fin? then [fs[|fs| - 1]] else [])
  }

  lemma SessionFramesSnoc(fs: seq<MuxFrame>, f: MuxFrame)
    ensures SessionFrames(fs + [f]) == SessionFrames(fs) + (if f.Data? || f.Fin? then [f] else [])
  {
    assert (fs + [f])[..|fs|] == fs;
  }

  /**
   From one ready queue and frame log to a later one: the session frames sent in between went to the
   ready ids in queue order, and the ids not reached have moved up.
   */
  ghost predicate RoundRobin(ready: seq<u64>, was: seq<MuxFrame>, ready': seq<u64>, now: seq<MuxFrame>)
  {
    && was <= now
    && (forall j :: |was| <= j < |now| && j - |was| < |ready| ==> now[j].id == ready[j - |was|])
    && (|now| - |was| <= |ready| ==> ready[|now| - |was|..] <= ready')
  }

  ghost predicate Turns(w: World, w': World)
  {
    RoundRobin(w.mux.ready, SessionFrames(w.Sent()), w'.mux.ready, SessionFrames(w'.Sent()))
  }

  lemma RoundRobinTransitive(r0: seq<u64>, s0: seq<MuxFrame>, r1: seq<u64>, s1: seq<MuxFrame>, r2: seq<u64>, s2: seq<MuxFrame>)
    requires RoundRobin(r0, s0, r1, s1) && RoundRobin(r1, s1, r2, s2)
    ensures RoundRobin(r0, s0, r2, s2)
  {
    var a, b := |s1| - |s0|, |s2| - |s1|;
    if a <= |r0| {
      assert forall j :: a <= j < |r0| ==> r1[j - a] == r0[a..][j - a] == r0[j];
      forall j | |s0| <= j < |s2| && j - |s0| < |r0|
        ensures s2[j].id == r0[j - |s0|]
      {
        if j < |s1| {
          assert s2[j] == s1[j];
        } else {
          assert s2[j].id == r1[j - |s1|];
        }
      }
      if a + b <= |r0| {
        assert r1[b..][..|r0| - a - b] == r0[a + b..];
      }
    } else {
      forall j | |s0| <= j < |s2| && j - |s0| < |r0|
        ensures s2[j].id == r0[j - |s0|]
      {
        assert s2[j] == s1[j];
      }
    }
  }

  lemma QuietTurn(w: World, w': World)
    requires w'.Sent() == w.Sent() && w.mux.ready <= w'.mux.ready
    ensures Turns(w, w')
  {
  }

  lemma NothingSent(w: World, e: Event)
    requires !e.Emitted?
    ensures Frames(w.log + [e]) == w.Sent()
  {
    FramesSnoc(w.log, e);
    assert w.Sent() + [] == w.Sent();
  }

  lemma EmittingTurn(w: World, st: State, f: MuxFrame)
    requires if f.Data? || f.Fin? then w.mux.ready != [] && f.id == w.mux.ready[0] && w.mux.ready[1..] <= st.ready
             else w.mux.ready <= st.ready
    ensures Turns(w, World(st, w.log + [Emitted(f)]))
  {
    hide Frames, SessionFrames;
    FramesSnoc(w.log, Emitted(f));
    SessionFramesSnoc(w.Sent(), f);
  }

  lemma FinLeavesReady(w: World, id: u64)
    requires Inv(w) && w.mux.failed.None? && id in w.mux.sessions
    ensures var s := w.mux.sessions[id].(remoteFin := true);
            Prune(w.mux.(sessions := w.mux.sessions[id := s]), id).ready == w.mux.ready
  {
    assert ViewOk(id, ViewOf(w, id));
  }

  lemma HeadIsServed(w: World)
    requires Inv(w) && w.mux.failed.None? && w.mux.control == [] && w.mux.ready != []
    ensures var (st, r) := NextReady(w.mux);
            && r.Emit? && (r.frame.Data? || r.frame.Fin?) && r.frame.id == w.mux.ready[0]
            && w.mux.ready[1..] <= st.ready
  {
    ReadyHead(w);
  }

  lemma NextTurn(w: World)
    requires Inv(w) && w.mux.failed.None?
    ensures Turns(w, Step(w, DoNext))
  {
    hide ViewOk, Scan, Queued, LedgerOf, Frames, SessionFrames;
    if w.mux.control != [] {
      assert ControlFrame(w.mux.control[0]);
      EmittingTurn(w, w.mux.(control := w.mux.control[1..]), w.mux.control[0]);
    } else if w.mux.ready != [] {
      HeadIsServed(w);
      var (st, r) := NextReady(w.mux);
      EmittingTurn(w, st, r.frame);
    } else {
      QuietTurn(w, w);
    }
  }

  lemma HandleIsQuiet(w: World, a: Action)
    requires Inv(w) && (a.DoAccept? || a.DoDrop? || a.DoRead? || a.DoCredit? || a.DoWrite?)
    ensures Step(w, a).Sent() == w.Sent() && w.mux.ready <= Step(w, a).mux.ready
  {
    hide ViewOk, QueuesOk, Inv, Scan, Queued, LedgerOf, Frames;
    match a
    case DoAccept =>
      if w.mux.accepted != [] {
        NothingSent(w, Handed(w.mux.accepted[0]));
      }
    case DoDrop(id) => NothingSent(w, Dropped(id));
    case DoRead(id, n) =>
      if w.Ledger(id).live {
        LiveReadKeepsSession(w, id, n);
        var r := ReadPop(w.mux, id, n).1;
        if r.ReadBytes? {
          NothingSent(w, Popped(id, r.bytes));
        }
      }
    case DoCredit(id, k) =>
      NothingSent(w, GaveUp(id, k));
      NothingSent(w, Credited(id, k));
    case DoWrite(id, buf) =>
      var r := Write(w.mux, id, buf).1;
      if r.Wrote? {
        NothingSent(w, Took(id, buf[..r.count]));
      }
    case _ =>
  }

  lemma IncomingIsQuiet(w: World, f: MuxFrame)
    requires Inv(w) && w.mux.failed.None?
    ensures Step(w, DoIncoming(f)).Sent() == w.Sent() && w.mux.ready <= Step(w, DoIncoming(f)).mux.ready
  {
    NothingSent(w, Opened(f.id));
    NothingSent(w, Arrived(f));
    if f.Fin? && f.id in w.mux.sessions {
      FinLeavesReady(w, f.id);
    }
  }

  lemma StepTurn(w: World, a: Action)
    requires Inv(w) && w.mux.failed.None? && Step(w, a).mux.failed.None?
    ensures Turns(w, Step(w, a))
  {
    if a.DoNext? {
      NextTurn(w);
    } else {
      if a.DoIncoming? {
        IncomingIsQuiet(w, a.frame);
      } else if !a.DoFail? {
        HandleIsQuiet(w, a);
      }
      QuietTurn(w, Step(w, a));
    }
  }

  lemma {:induction false} RoundRobinFrom(w: World, actions: seq<Action>)
    requires Inv(w) && Run(w, actions).mux.failed.None?
    ensures Turns(w, Run(w, actions))
    decreases |actions|
  {
    if actions == [] {
      QuietTurn(w, w);
    } else {
      var mid, end := Step(w, actions[0]), Run(w, actions);
      StepKeeps(w, actions[0]);
      FailureSticks(mid, actions[1..]);
      FailureSticks(w, actions);
      StepTurn(w, actions[0]);
      RoundRobinFrom(mid, actions[1..]);
      RoundRobinTransitive(w.mux.ready, SessionFrames(w.Sent()), mid.mux.ready, SessionFrames(mid.Sent()),
                           end.mux.ready, SessionFrames(end.Sent()));
    }
  }

  /**
   Round robin, exactly: while the mux has not failed, a session waiting behind p others sends its next
   frame as the (p+1)-th session frame from now and not before, whatever else is written, closed, opened
   or pruned meanwhile; until then it has moved up by the number of frames sent.
   */
  lemma FairnessBound(before: seq<Action>, after: seq<Action>, p: nat)
    requires p < |Run(START, before).mux.ready|
    requires Run(Run(START, before), after).mux.failed.None?
    ensures var w, w' := Run(START, before), Run(Run(START, before), after);
            var id, was, now := w.mux.ready[p], SessionFrames(w.Sent()), SessionFrames(w'.Sent());
            && |was| <= |now|
            && (forall j :: |was| <= j < |now| && j < |was| + p ==> now[j].id != id)
            && (if |now| - |was| > p then now[|was| + p].id == id
                else var k := p - (|now| - |was|); k < |w'.mux.ready| && w'.mux.ready[k] == id)
  {
    hide Run, ViewOk, ViewOf, Frames, SessionFrames, Sendable;
    Reachable(before);
    RoundRobinFrom(Run(START, before), after);
  }

  // ----- Failure -----

  lemma {:induction false} FailureSticks(w: World, actions: seq<Action>)
    ensures w.mux.failed.Some? ==> Run(w, actions).mux.failed == w.mux.failed && Run(w, actions).Sent() == w.Sent()
    decreases |actions|
  {
    if actions != [] {
      if w.mux.failed.Some? {
        FailedStepIsSilent(w, actions[0]);
      }
      FailureSticks(Step(w, actions[0]), actions[1..]);
    }
  }

  /** After a failure nothing more is emitted or handed out, though arriving frames are still absorbed. */
  lemma FailedStepIsSilent(w: World, a: Action)
    requires w.mux.failed.Some?
    ensures var w' := Step(w, a);
            && w'.mux.failed == w.mux.failed
            && w'.Sent() == w.Sent()
            && (forall id: u64 :: w'.Ledger(id).live ==> w.Ledger(id).live)
  {
    hide Frames, Scan, NextReady, IsHostSessionId;
    var w' := Step(w, a);
    if w'.log != w.log {
      var e := w'.log[|w.log|];
      assert w'.log == w.log + [e] && !e.Emitted? && !e.Handed?;
      NothingSent(w, e);
      forall id: u64
        ensures w'.Ledger(id).live ==> w.Ledger(id).live
      {
        LedgerSnoc(w.log, e, id);
      }
    }
  }

  // ----- Handles -----

  /** A live handle always finds its session, in every reachable state, failed or not. */
  lemma LiveHandleFindsItsSession(actions: seq<Action>, id: u64, n: nat, buf: seq<byte>)
    requires Run(START, actions).Ledger(id).live
    ensures var st := Run(START, actions).mux;
            && id in st.sessions
            && !ReadPop(st, id, n).1.ReadMissing?
            && !Write(st, id, buf).1.WriteMissing?
            && !Write(st, id, buf).1.WriteLocalClosed?
            && !Flush(st, id).FlushMissing?
  {
    hide Run, SessionOk, RunningOk, Scan, Queued, LedgerOf, Frames;
    Reachable(actions);
    var w := Run(START, actions);
    assert ViewOk(id, ViewOf(w, id));
  }

  /** Only a FIN, sent or received, takes a session out of the map, and only a drained one. */
  lemma OnlyFinPrunes(w: World, a: Action, id: u64)
    requires Inv(w) && id in w.mux.sessions && id !in Step(w, a).mux.sessions
    ensures w.mux.sessions[id].localFin && w.mux.sessions[id].inbound == [] && w.mux.sessions[id].outbound == []
    ensures if a.DoNext? then w.mux.sessions[id].remoteFin else a == DoIncoming(Fin(id)) && w.mux.sessions[id].finSent
  {
    if a.DoRead? && w.Ledger(a.id).live {
      LiveReadKeepsSession(w, a.id, a.capacity);
    }
    if a.DoNext? && w.mux.failed.None? && w.mux.control == [] && w.mux.ready != [] {
      ReadyHead(w);
    }
  }

  /** A session leaves the map only after its handle was dropped, both sides finished and every byte moved. */
  lemma PrunedOnlyWhenDone(actions: seq<Action>, a: Action, id: u64)
    requires id in Run(START, actions).mux.sessions && id !in Step(Run(START, actions), a).mux.sessions
    ensures var w := Run(START, actions);
            var s := w.mux.sessions[id];
            && !w.Ledger(id).live
            && s.localFin
            && (if a.DoNext? then s.remoteFin else a == DoIncoming(Fin(id)) && s.finSent)
            && w.Ledger(id).received == w.Ledger(id).taken
            && w.Ledger(id).written == w.Ledger(id).sent
  {
    Reachable(actions);
    var w := Run(START, actions);
    OnlyFinPrunes(w, a, id);
    assert ViewOk(id, ViewOf(w, id));
  }

  /** A read that took bytes returns them as credit unless the mux has failed: nothing is lost on the way. */
  lemma ReadsReturnTheirCredit(actions: seq<Action>, id: u64, k: nat)
    requires var w := Run(START, actions); w.mux.failed.None? && w.Ledger(id).live && k < |w.Ledger(id).inFlight|
    ensures var w := Run(START, actions);
            var n := w.Ledger(id).inFlight[k];
            && 0 < n < U32_LIMIT
            && (ReadCredit(w.mux, id, n).1.CreditQueued? <==> |w.mux.control| < MAX_CONTROL_FRAMES)
  {
    Reachable(actions);
    var w := Run(START, actions);
    assert ViewOk(id, ViewOf(w, id));
  }
}
