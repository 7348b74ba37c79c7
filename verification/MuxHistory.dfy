/**
 What the history of a run says about each session, and that this is what the sessions are: which ids are open, what
 has been closed or reset on either side, which chunks and which control frames are still owed.
 */
module MuxHistory {
  import opened Bytes
  import opened MuxCodec
  import opened Mux
  import opened MuxRuns
  import opened MuxInvariant

  // ----- Reading the log -----

  /** What happened since the id was last opened. */
  function Since(log: seq<Event>, id: u64): (r: seq<Event>)
  {
    if log == [] then []
    else
      var n := |log| - 1;
      if log[n] == Opened(id) then [] else Since(log[..n], id) + [log[n]]
  }

  lemma SinceSnoc(log: seq<Event>, e: Event, id: u64)
    ensures Since(log + [e], id) == if e == Opened(id) then [] else Since(log, id) + [e]
  {
    assert (log + [e])[..|log|] == log;
  }

  predicate FinArrived(es: seq<Event>, id: u64)
  {
    Arrived(Fin(id)) in es
  }

  predicate FinEmitted(es: seq<Event>, id: u64)
  {
    Emitted(Fin(id)) in es
  }

  predicate WasDropped(es: seq<Event>, id: u64)
  {
    Dropped(id) in es
  }

  /** The reason of the last Rst that arrived. */
  function LastReset(es: seq<Event>, id: u64): (r: Option<Reason>)
  {
    if es == [] then None
    else
      var n := |es| - 1;
      if es[n].Arrived? && es[n].frame.Rst? && es[n].frame.id == id then Some(es[n].frame.reason)
      else LastReset(es[..n], id)
  }

  lemma LastResetSnoc(es: seq<Event>, e: Event, id: u64)
    ensures LastReset(es + [e], id) ==
            if e.Arrived? && e.frame.Rst? && e.frame.id == id then Some(e.frame.reason) else LastReset(es, id)
  {
    assert (es + [e])[..|es|] == es;
  }

  /** The chunks that writes took. */
  function Taken(es: seq<Event>, id: u64): (r: seq<seq<byte>>)
  {
    if es == [] then []
    else
      var n := |es| - 1;
      Taken(es[..n], id) + (if es[n].Took? && es[n].id == id then [es[n].bytes] else [])
  }

  lemma TakenSnoc(es: seq<Event>, e: Event, id: u64)
    ensures Taken(es + [e], id) == Taken(es, id) + (if e.Took? && e.id == id then [e.bytes] else [])
  {
    assert (es + [e])[..|es|] == es;
  }

  /** The chunks that went out as Data frames. */
  function Shipped(es: seq<Event>, id: u64): (r: seq<seq<byte>>)
  {
    if es == [] then []
    else
      var n := |es| - 1;
      Shipped(es[..n], id)
      + (if es[n].Emitted? && es[n].frame.Data? && es[n].frame.id == id then [es[n].frame.bytes] else [])
  }

  lemma ShippedSnoc(es: seq<Event>, e: Event, id: u64)
    ensures Shipped(es + [e], id) ==
            Shipped(es, id) + (if e.Emitted? && e.frame.Data? && e.frame.id == id then [e.frame.bytes] else [])
  {
    assert (es + [e])[..|es|] == es;
  }

  /** An id is open from its opening until both sides have finished and all that was received has been read. */
  predicate IsOpen(log: seq<Event>, id: u64)
  {
    var es, l := Since(log, id), LedgerOf(log, id);
    Opened(id) in log && !(FinEmitted(es, id) && FinArrived(es, id) && l.received == l.taken)
  }

  // ----- The sessions are what the log says -----

  ghost predicate Matches(s: Session, es: seq<Event>, id: u64, failed: bool)
  {
    && (s.remoteFin <==> FinArrived(es, id))
    && (s.finSent <==> FinEmitted(es, id))
    && Taken(es, id) == Shipped(es, id) + s.outbound
    && (!failed ==> (s.localFin <==> WasDropped(es, id)) && s.resetReason == LastReset(es, id))
  }

  ghost predicate Tells(w: World, id: u64)
  {
    && (id in w.mux.sessions <==> IsOpen(w.log, id))
    && (id in w.mux.sessions ==> Matches(w.mux.sessions[id], Since(w.log, id), id, w.mux.failed.Some?))
  }

  ghost predicate Told(w: World)
  {
    forall id: u64 :: Tells(w, id)
  }

  lemma OtherEvent(es: seq<Event>, e: Event, id: u64)
    requires EventId(e) != id
    ensures FinArrived(es + [e], id) == FinArrived(es, id) && FinEmitted(es + [e], id) == FinEmitted(es, id)
    ensures WasDropped(es + [e], id) == WasDropped(es, id) && LastReset(es + [e], id) == LastReset(es, id)
    ensures Taken(es + [e], id) == Taken(es, id) && Shipped(es + [e], id) == Shipped(es, id)
  {
    hide LastReset, Taken, Shipped;
    LastResetSnoc(es, e, id);
    TakenSnoc(es, e, id);
    ShippedSnoc(es, e, id);
  }

  /** A step that logs an event of one id only has to be checked there. */
  lemma TellOthers(w: World, st: State, e: Event)
    requires Told(w) && Tells(World(st, w.log + [e]), EventId(e))
    requires st.failed.Some? == w.mux.failed.Some?
    requires forall i :: i != EventId(e) ==> (i in st.sessions <==> i in w.mux.sessions)
    requires forall i :: i != EventId(e) && i in st.sessions ==> st.sessions[i] == w.mux.sessions[i]
    ensures Told(World(st, w.log + [e]))
  {
    hide LedgerOf, Since, FinArrived, FinEmitted, WasDropped, LastReset, Taken, Shipped;
    forall i: u64
      ensures Tells(World(st, w.log + [e]), i)
    {
      if i != EventId(e) {
        assert Tells(w, i);
        SinceSnoc(w.log, e, i);
        LedgerSnoc(w.log, e, i);
        OtherEvent(Since(w.log, i), e, i);
      }
    }
  }

  /** The facts about one id after an event that is not its opening. */
  lemma NextFacts(log: seq<Event>, e: Event, id: u64)
    requires !e.Opened?
    ensures var es, es' := Since(log, id), Since(log + [e], id);
            && es' == es + [e]
            && (Opened(id) in log + [e] <==> Opened(id) in log)
            && LedgerOf(log + [e], id) == Note(LedgerOf(log, id), id, e)
            && FinArrived(es', id) == (FinArrived(es, id) || e == Arrived(Fin(id)))
            && FinEmitted(es', id) == (FinEmitted(es, id) || e == Emitted(Fin(id)))
            && WasDropped(es', id) == (WasDropped(es, id) || e == Dropped(id))
            && LastReset(es', id) == (if e.Arrived? && e.frame.Rst? && e.frame.id == id then Some(e.frame.reason) else LastReset(es, id))
            && Taken(es', id) == Taken(es, id) + (if e.Took? && e.id == id then [e.bytes] else [])
            && Shipped(es', id) ==
               Shipped(es, id) + (if e.Emitted? && e.frame.Data? && e.frame.id == id then [e.frame.bytes] else [])
  {
    hide LedgerOf, Since, LastReset, Taken, Shipped;
    var es := Since(log, id);
    SinceSnoc(log, e, id);
    LedgerSnoc(log, e, id);
    LastResetSnoc(es, e, id);
    TakenSnoc(es, e, id);
    ShippedSnoc(es, e, id);
  }

  /** What the invariant knows of an open session. */
  lemma SessionFacts(w: World, id: u64)
    requires Inv(w) && id in w.mux.sessions
    ensures var s, l := w.mux.sessions[id], w.Ledger(id);
            && (l.received == l.taken <==> s.inbound == [])
            && (s.finSent ==> s.localFin && s.outbound == [])
            && s.outboundBytes == |Flatten(s.outbound)|
            && (l.live ==> !s.localFin)
  {
    hide Scan, Queued, LedgerOf, Frames, Sum;
    assert ViewOk(id, ViewOf(w, id));
    assert w.Ledger(id).received[|w.Ledger(id).taken|..] == w.mux.sessions[id].inbound;
  }

  lemma LiveFacts(w: World, id: u64)
    requires Inv(w) && w.Ledger(id).live
    ensures id in w.mux.sessions
  {
    hide Scan, Queued, LedgerOf, Frames, Sum;
    assert ViewOk(id, ViewOf(w, id));
  }

  /** An event that leaves the session map alone and is none of those the facts are about. */
  lemma TellQuiet(w: World, st: State, e: Event)
    requires Told(w) && st.sessions == w.mux.sessions && st.failed.Some? == w.mux.failed.Some?
    requires match e
             case Handed(_) => true
             case Credited(_, _) => true
             case GaveUp(_, _) => true
             case Emitted(f) => ControlFrame(f)
             case Arrived(f) => f.Open?
             case _ => false
    ensures Told(World(st, w.log + [e]))
  {
    hide LedgerOf, Since, FinArrived, FinEmitted, WasDropped, LastReset, Taken, Shipped;
    var id := EventId(e);
    assert Tells(w, id);
    NextFacts(w.log, e, id);
    TellOthers(w, st, e);
  }

  lemma TellDrop(w: World, id: u64)
    requires Inv(w) && Told(w) && w.Ledger(id).live
    ensures Told(World(Close(w.mux, id), w.log + [Dropped(id)]))
  {
    hide Inv, LedgerOf, Since, FinArrived, FinEmitted, WasDropped, LastReset, Taken, Shipped;
    LiveFacts(w, id);
    SessionFacts(w, id);
    assert Tells(w, id);
    NextFacts(w.log, Dropped(id), id);
    TellOthers(w, Close(w.mux, id), Dropped(id));
  }

  lemma TellRead(w: World, id: u64, n: nat)
    requires Inv(w) && Told(w) && w.Ledger(id).live && ReadPop(w.mux, id, n).1.ReadBytes?
    ensures var (st, r) := ReadPop(w.mux, id, n); Told(World(st, w.log + [Popped(id, r.bytes)]))
  {
    hide Inv, LedgerOf, Since, FinArrived, FinEmitted, WasDropped, LastReset, Taken, Shipped;
    var (st, r) := ReadPop(w.mux, id, n);
    SessionFacts(w, id);
    assert Tells(w, id);
    NextFacts(w.log, Popped(id, r.bytes), id);
    TellOthers(w, st, Popped(id, r.bytes));
  }

  lemma TellWrite(w: World, id: u64, buf: seq<byte>)
    requires Inv(w) && Told(w) && Write(w.mux, id, buf).1.Wrote? && Write(w.mux, id, buf).1.count <= |buf|
    ensures var (st, r) := Write(w.mux, id, buf); Told(World(st, w.log + [Took(id, buf[..r.count])]))
  {
    hide Inv, LedgerOf, Since, FinArrived, FinEmitted, WasDropped, LastReset, Taken, Shipped;
    var (st, r) := Write(w.mux, id, buf);
    var e := Took(id, buf[..r.count]);
    var s, es := w.mux.sessions[id], Since(w.log, id);
    assert Tells(w, id);
    NextFacts(w.log, e, id);
    assert Shipped(es, id) + s.outbound + [buf[..r.count]] == Shipped(es, id) + (s.outbound + [buf[..r.count]]);
    TellOthers(w, st, e);
  }

  lemma TellData(w: World)
    requires Inv(w) && Told(w) && w.mux.failed.None? && w.mux.ready != [] && w.mux.ready[0] in w.mux.sessions
    requires w.mux.sessions[w.mux.ready[0]].outbound != []
    ensures var (st, r) := NextReady(w.mux); r.Emit? && Told(World(st, w.log + [Emitted(r.frame)]))
  {
    hide Inv, LedgerOf, Since, FinArrived, FinEmitted, WasDropped, LastReset, Taken, Shipped;
    var id := w.mux.ready[0];
    var (st, r) := NextReady(w.mux);
    var s, es, e := w.mux.sessions[id], Since(w.log, id), Emitted(r.frame);
    SessionFacts(w, id);
    assert Tells(w, id);
    NextFacts(w.log, e, id);
    assert s.outbound == [s.outbound[0]] + s.outbound[1..];
    assert Shipped(es, id) + [s.outbound[0]] + s.outbound[1..] == Taken(es, id);
    TellOthers(w, st, e);
  }

  lemma TellFin(w: World)
    requires Inv(w) && Told(w) && w.mux.failed.None? && w.mux.ready != [] && w.mux.ready[0] in w.mux.sessions
    requires w.mux.sessions[w.mux.ready[0]].outbound == [] && w.mux.sessions[w.mux.ready[0]].OwesFin()
    ensures var (st, r) := NextReady(w.mux); r.Emit? && Told(World(st, w.log + [Emitted(r.frame)]))
  {
    hide Inv, LedgerOf, Since, FinArrived, FinEmitted, WasDropped, LastReset, Taken, Shipped;
    var id := w.mux.ready[0];
    var st := NextReady(w.mux).0;
    SessionFacts(w, id);
    assert Tells(w, id);
    NextFacts(w.log, Emitted(Fin(id)), id);
    TellOthers(w, st, Emitted(Fin(id)));
  }

  lemma TellSend(w: World)
    requires Inv(w) && Told(w) && w.mux.failed.None? && w.mux.ready != []
    ensures var (st, r) := NextReady(w.mux); r.Emit? && Told(World(st, w.log + [Emitted(r.frame)]))
  {
    hide Inv, Told, NextReady;
    ReadyHead(w);
    if w.mux.sessions[w.mux.ready[0]].outbound != [] {
      TellData(w);
    } else {
      TellFin(w);
    }
  }

  lemma TellArrival(w: World, f: MuxFrame)
    requires Inv(w) && Told(w) && !f.Open? && Incoming(w.mux, f).1.None?
    ensures Told(World(Incoming(w.mux, f).0, w.log + [Arrived(f)]))
  {
    hide Inv, LedgerOf, Since, FinArrived, FinEmitted, WasDropped, LastReset, Taken, Shipped, IsHostSessionId;
    var st, e := Incoming(w.mux, f).0, Arrived(f);
    SessionFacts(w, f.id);
    assert Tells(w, f.id);
    NextFacts(w.log, e, f.id);
    if f.Data? {
      ReceivedMore(w, f);
    }
    TellOthers(w, st, e);
  }

  lemma ReceivedMore(w: World, f: MuxFrame)
    requires Inv(w) && f.Data? && f.id in w.mux.sessions
    ensures var l := w.Ledger(f.id);
            l.received + f.bytes == l.taken <==> w.mux.sessions[f.id].inbound == [] == f.bytes
  {
    hide Scan, Queued, LedgerOf, Frames, Sum;
    assert ViewOk(f.id, ViewOf(w, f.id));
  }

  lemma TellOpening(w: World, id: u64, st: State)
    requires Told(w) && st.failed == w.mux.failed && st.sessions == w.mux.sessions[id := NEW_SESSION]
    ensures Told(World(st, w.log + [Opened(id)]))
  {
    hide LedgerOf, Since;
    SinceSnoc(w.log, Opened(id), id);
    TellOthers(w, st, Opened(id));
  }

  lemma TellFail(w: World, reason: Reason)
    requires Told(w)
    ensures Told(Step(w, DoFail(reason)))
  {
    hide LedgerOf, Since, FinArrived, FinEmitted, WasDropped, LastReset, Taken, Shipped;
    forall id: u64
      ensures Tells(Step(w, DoFail(reason)), id)
    {
      assert Tells(w, id);
    }
  }

  lemma TellHandleStep(w: World, a: Action)
    requires Inv(w) && Told(w) && (a.DoAccept? || a.DoDrop? || a.DoRead? || a.DoCredit? || a.DoWrite?)
    ensures Told(Step(w, a))
  {
    hide Inv, Told, LedgerOf, Frames;
    match a
    case DoAccept =>
      if w.mux.failed.None? && w.mux.accepted != [] {
        TellAccept(w);
      }
    case DoDrop(id) =>
      if w.Ledger(id).live && w.Ledger(id).inFlight == [] {
        TellDrop(w, id);
      }
    case DoRead(id, n) =>
      if w.Ledger(id).live {
        LiveReadKeepsSession(w, id, n);
        if ReadPop(w.mux, id, n).1.ReadBytes? {
          TellRead(w, id, n);
        }
      }
    case DoCredit(id, k) =>
      if w.Ledger(id).live && k < |w.Ledger(id).inFlight| {
        var credit := w.Ledger(id).inFlight[k];
        CreditKeeps(w, id, k);
        var (st, r) := ReadCredit(w.mux, id, credit);
        TellQuiet(w, st, Credited(id, k));
        TellQuiet(w, st, GaveUp(id, k));
      }
    case DoWrite(id, buf) =>
      if w.Ledger(id).live && Write(w.mux, id, buf).1.Wrote? {
        WriteKeeps(w, id, buf);
        TellWrite(w, id, buf);
      }
    case _ =>
  }

  lemma TellAccept(w: World)
    requires Inv(w) && Told(w) && w.mux.failed.None? && w.mux.accepted != []
    ensures Told(Step(w, DoAccept))
  {
    hide Told, LedgerOf, Frames;
    AcceptKeeps(w);
    TellQuiet(w, w.mux.(accepted := w.mux.accepted[1..]), Handed(w.mux.accepted[0]));
  }

  lemma TellThreadStep(w: World, a: Action)
    requires Inv(w) && Told(w) && (a.DoNext? || a.DoIncoming? || a.DoFail?)
    ensures Told(Step(w, a))
  {
    hide Told, LedgerOf, Frames, ViewOk, IsHostSessionId, NextReady;
    match a
    case DoNext =>
      if w.mux.failed.None? {
        if w.mux.control != [] {
          assert ControlFrame(w.mux.control[0]);
          TellQuiet(w, w.mux.(control := w.mux.control[1..]), Emitted(w.mux.control[0]));
        } else if w.mux.ready != [] {
          TellSend(w);
        } else {
          NothingReady(w.mux);
        }
      }
    case DoIncoming(f) =>
      var (st, v) := Incoming(w.mux, f);
      if v.None? {
        if !f.Open? {
          TellArrival(w, f);
        } else if MetadataSupported(f.metadata) {
          TellOpening(w, f.id, st);
        } else {
          TellQuiet(w, st, Arrived(f));
        }
      }
    case DoFail(reason) => TellFail(w, reason);
    case _ =>
  }

  lemma NothingReady(st: State)
    requires st.ready == []
    ensures NextReady(st) == (st, WriterBlocked)
  {
  }

  lemma StepTells(w: World, a: Action)
    requires Inv(w) && Told(w)
    ensures Told(Step(w, a))
  {
    hide Inv, Told, Step;
    if a.DoNext? || a.DoIncoming? || a.DoFail? {
      TellThreadStep(w, a);
    } else {
      TellHandleStep(w, a);
    }
  }

  lemma {:induction false} RunTells(w: World, actions: seq<Action>)
    requires Inv(w) && Told(w)
    ensures Told(Run(w, actions))
    decreases |actions|
  {
    hide Inv, Told, Step;
    if actions != [] {
      StepKeeps(w, actions[0]);
      StepTells(w, actions[0]);
      RunTells(Step(w, actions[0]), actions[1..]);
    }
  }

  /**
   In every reachable state, failed or not: the open sessions are those the log says are open; a session has seen the
   host's FIN exactly if one arrived since the opening, and sent its own exactly if it was emitted since; the chunks
   writes took are those shipped followed by those queued. Until a failure it is closed locally exactly if its handle was
   dropped, and reset exactly as the last Rst says.
   */
  lemma SessionsAreWhatTheLogSays(actions: seq<Action>, id: u64)
    ensures Tells(Run(START, actions), id)
  {
    hide Tells, Run;
    Reachable([]);
    StartTells();
    RunTells(START, actions);
  }

  lemma StartTells()
    ensures Run(START, []) == START && Told(START)
  {
  }
}
