/**
 The answer of every mux operation, from the history of the run alone: what a handle, the host and the writer observe
 does not depend on anything that was not logged.
 */
module MuxAnswers {
  import opened Bytes
  import opened Utf8
  import opened MuxCodec
  import opened Mux
  import opened MuxRuns
  import opened MuxInvariant
  import opened MuxTheorems
  import opened MuxOrder
  import opened MuxHistory

  // ----- Control frames -----

  /** The control frame an event makes due: the answer to an opening, or a window for bytes that were read. */
  function Due(before: seq<Event>, e: Event): (r: seq<MuxFrame>)
  {
    match e
    case Opened(id) => [OpenOk(id, 0x4_0000)]
    case Arrived(f) => if f.Open? then [OpenErr(f.id, Ascii("unsupported mux session kind"))] else []
    case Credited(id, k) =>
      var held := LedgerOf(before, id).inFlight;
      if k < |held| && held[k] < U32_LIMIT then [Window(id, held[k])] else []
    case _ => []
  }

  function AllDue(log: seq<Event>): (r: seq<MuxFrame>)
  {
    if log == [] then []
    else
      var n := |log| - 1;
      AllDue(log[..n]) + Due(log[..n], log[n])
  }

  lemma AllDueSnoc(log: seq<Event>, e: Event)
    ensures AllDue(log + [e]) == AllDue(log) + Due(log, e)
  {
    assert (log + [e])[..|log|] == log;
  }

  function ControlFrames(fs: seq<MuxFrame>): (r: seq<MuxFrame>)
  {
    if fs == [] then []
    else ControlFrames(fs[..|fs| - 1]) + (if ControlFrame(fs[|fs| - 1]) then [fs[|fs| - 1]] else [])
  }

  lemma ControlFramesSnoc(fs: seq<MuxFrame>, f: MuxFrame)
    ensures ControlFrames(fs + [f]) == ControlFrames(fs) + (if ControlFrame(f) then [f] else [])
  {
    assert (fs + [f])[..|fs|] == fs;
  }

  /** The control frames sent, then those waiting, are those that became due, in that order. */
  ghost predicate ControlInOrder(w: World)
  {
    w.mux.failed.None? ==> AllDue(w.log) == ControlFrames(w.Sent()) + w.mux.control
  }

  lemma QuietControl(w: World, st: State, e: Event)
    requires ControlInOrder(w) && st.failed == w.mux.failed && !e.Emitted?
    requires w.mux.failed.None? ==> st.control == w.mux.control + Due(w.log, e)
    ensures ControlInOrder(World(st, w.log + [e]))
  {
    hide AllDue, ControlFrames, Due, Frames;
    AllDueSnoc(w.log, e);
    NothingSent(w, e);
  }

  lemma EmittedControl(w: World, st: State, f: MuxFrame)
    requires ControlInOrder(w) && st.failed == w.mux.failed
    requires w.mux.control == (if ControlFrame(f) then [f] else []) + st.control
    ensures ControlInOrder(World(st, w.log + [Emitted(f)]))
  {
    hide AllDue, ControlFrames, Frames;
    AllDueSnoc(w.log, Emitted(f));
    FramesSnoc(w.log, Emitted(f));
    ControlFramesSnoc(w.Sent(), f);
  }

  lemma HandleKeepsControl(w: World, a: Action)
    requires Inv(w) && ControlInOrder(w) && (a.DoAccept? || a.DoDrop? || a.DoRead? || a.DoCredit? || a.DoWrite?)
    ensures ControlInOrder(Step(w, a))
  {
    hide Inv, ControlInOrder, LedgerOf, Frames;
    match a
    case DoAccept =>
      if w.mux.failed.None? && w.mux.accepted != [] {
        HeadIsOpen(w);
        QuietControl(w, w.mux.(accepted := w.mux.accepted[1..]), Handed(w.mux.accepted[0]));
      }
    case DoDrop(id) => QuietControl(w, Close(w.mux, id), Dropped(id));
    case DoRead(id, n) =>
      if w.Ledger(id).live {
        LiveReadKeepsSession(w, id, n);
        var (st, r) := ReadPop(w.mux, id, n);
        if r.ReadBytes? {
          QuietControl(w, st, Popped(id, r.bytes));
        }
      }
    case DoCredit(id, k) =>
      if w.Ledger(id).live && k < |w.Ledger(id).inFlight| {
        CreditKeeps(w, id, k);
        var (st, r) := ReadCredit(w.mux, id, w.Ledger(id).inFlight[k]);
        match r
        case CreditQueued => QuietControl(w, st, Credited(id, k));
        case CreditFailed(_) => QuietControl(w, st, GaveUp(id, k));
        case CreditBlocked =>
      }
    case DoWrite(id, buf) =>
      var (st, r) := Write(w.mux, id, buf);
      if r.Wrote? {
        QuietControl(w, st, Took(id, buf[..r.count]));
      }
    case _ =>
  }

  lemma ThreadKeepsControl(w: World, a: Action)
    requires Inv(w) && ControlInOrder(w) && (a.DoNext? || a.DoIncoming? || a.DoFail?)
    ensures ControlInOrder(Step(w, a))
  {
    hide ControlInOrder, ViewOk, LedgerOf, Frames, IsHostSessionId, NextReady;
    match a
    case DoNext =>
      if w.mux.failed.None? {
        if w.mux.control != [] {
          assert ControlFrame(w.mux.control[0]);
          EmittedControl(w, w.mux.(control := w.mux.control[1..]), w.mux.control[0]);
        } else if w.mux.ready != [] {
          HeadLeavesControl(w);
          EmittedControl(w, NextReady(w.mux).0, NextReady(w.mux).1.frame);
        } else {
          NothingReady(w.mux);
        }
      }
    case DoIncoming(f) =>
      var (st, v) := Incoming(w.mux, f);
      if v.None? {
        QuietControl(w, st, if f.Open? && MetadataSupported(f.metadata) then Opened(f.id) else Arrived(f));
      }
    case DoFail(reason) => FailedControl(w, reason);
    case _ =>
  }

  lemma HeadLeavesControl(w: World)
    requires Inv(w) && w.mux.failed.None? && w.mux.control == [] && w.mux.ready != []
    ensures var (st, r) := NextReady(w.mux);
            r.Emit? && !ControlFrame(r.frame) && st.control == [] && st.failed == w.mux.failed
  {
    ReadyHead(w);
  }

  lemma FailedControl(w: World, reason: Reason)
    requires ControlInOrder(w)
    ensures ControlInOrder(Step(w, DoFail(reason)))
  {
  }

  lemma {:induction false} RunKeepsControl(w: World, actions: seq<Action>)
    requires Inv(w) && ControlInOrder(w)
    ensures ControlInOrder(Run(w, actions))
    decreases |actions|
  {
    hide Inv, ControlInOrder, Step;
    if actions != [] {
      StepKeeps(w, actions[0]);
      if actions[0].DoNext? || actions[0].DoIncoming? || actions[0].DoFail? {
        ThreadKeepsControl(w, actions[0]);
      } else {
        HandleKeepsControl(w, actions[0]);
      }
      RunKeepsControl(Step(w, actions[0]), actions[1..]);
    }
  }

  /** Until the mux fails, every opening is answered and every read returns its credit, in the order they became due. */
  lemma ControlFramesAreSentInOrder(actions: seq<Action>)
    requires Run(START, actions).mux.failed.None?
    ensures var w := Run(START, actions); AllDue(w.log) == ControlFrames(w.Sent()) + w.mux.control
  {
    hide Run, Inv;
    Reachable([]);
    StartTells();
    RunKeepsControl(START, actions);
  }

  /** How many control frames wait. */
  function Waiting(log: seq<Event>): (n: int)
  {
    |AllDue(log)| - |ControlFrames(Frames(log))|
  }

  // ----- Handles -----

  /** A read of n > 0 bytes: the last reset, else what was received and not yet taken, else the end if the host has finished. */
  function ReadAnswer(log: seq<Event>, id: u64, n: nat): (r: ReadOutcome)
  {
    var es, l := Since(log, id), LedgerOf(log, id);
    match LastReset(es, id)
    case Some(reason) => ReadReset(reason)
    case None =>
      if |l.taken| < |l.received| then ReadBytes(l.received[|l.taken|..|l.taken| + Least(n, |l.received| - |l.taken|)])
      else if FinArrived(es, id) then ReadEof
      else ReadBlocked
  }

  lemma ReadsFollowTheLog(actions: seq<Action>, id: u64, n: nat)
    requires var w := Run(START, actions); w.Ledger(id).live && w.mux.failed.None? && n > 0
    ensures ReadPop(Run(START, actions).mux, id, n).1 == ReadAnswer(Run(START, actions).log, id, n)
  {
    hide Run, LedgerOf, Scan, Queued, Frames, Since, LastReset, FinArrived;
    Reachable(actions);
    SessionsAreWhatTheLogSays(actions, id);
    var w := Run(START, actions);
    assert ViewOk(id, ViewOf(w, id));
    var s, l := w.mux.sessions[id], w.Ledger(id);
    var k := Least(n, |s.inbound|);
    assert l.received[|l.taken|..|l.taken| + k] == s.inbound[..k];
  }

  function Shortfall(a: nat, b: nat): (n: nat)
  {
    if a <= b then b - a else 0
  }

  /** What a write may take: bounded by the frame size, the host's unused credit and 256 KiB of unsent bytes. */
  function Room(l: Ledger): (n: nat)
  {
    Least(0x1_0000, Least(Shortfall(|l.written|, l.credit), Shortfall(|l.written|, |l.sent| + 0x4_0000)))
  }

  /** A write of some bytes on a live handle. */
  function WriteAnswer(log: seq<Event>, id: u64, n: nat): (r: WriteOutcome)
  {
    var es, l := Since(log, id), LedgerOf(log, id);
    match LastReset(es, id)
    case Some(reason) => WriteReset(reason)
    case None =>
      if FinArrived(es, id) then WriteRemoteClosed
      else if Room(l) == 0 then WriteBlocked
      else Wrote(Least(n, Room(l)))
  }

  lemma WritesFollowTheLog(actions: seq<Action>, id: u64, buf: seq<byte>)
    requires var w := Run(START, actions); w.Ledger(id).live && w.mux.failed.None? && buf != []
    ensures Write(Run(START, actions).mux, id, buf).1 == WriteAnswer(Run(START, actions).log, id, |buf|)
  {
    hide Run, LedgerOf, Scan, Queued, Frames, Since, LastReset, FinArrived;
    Reachable(actions);
    SessionsAreWhatTheLogSays(actions, id);
    var w := Run(START, actions);
    assert ViewOk(id, ViewOf(w, id));
  }

  function FlushAnswer(log: seq<Event>, id: u64): (r: FlushOutcome)
  {
    var l := LedgerOf(log, id);
    match LastReset(Since(log, id), id)
    case Some(reason) => FlushReset(reason)
    case None => if l.written == l.sent then Flushed else FlushBlocked
  }

  lemma FlushesFollowTheLog(actions: seq<Action>, id: u64)
    requires var w := Run(START, actions); w.Ledger(id).live && w.mux.failed.None?
    ensures Flush(Run(START, actions).mux, id) == FlushAnswer(Run(START, actions).log, id)
  {
    hide Run, LedgerOf, Scan, Queued, Frames, Since, LastReset;
    Reachable(actions);
    SessionsAreWhatTheLogSays(actions, id);
    var w := Run(START, actions);
    assert ViewOk(id, ViewOf(w, id));
  }

  /** The host can be heard on a live handle until it finishes or resets the session, or the mux fails. */
  lemma RemoteClosedFollowsTheLog(actions: seq<Action>, id: u64)
    requires var w := Run(START, actions); w.Ledger(id).live && w.mux.failed.None?
    ensures var w := Run(START, actions);
            var es := Since(w.log, id);
            RemoteClosed(w.mux, id) <==> FinArrived(es, id) || LastReset(es, id).Some?
  {
    hide Run, LedgerOf, Scan, Queued, Frames, Since, LastReset, FinArrived;
    Reachable(actions);
    SessionsAreWhatTheLogSays(actions, id);
    var w := Run(START, actions);
    assert ViewOk(id, ViewOf(w, id));
  }

  /** The longest waiting session is handed out; only if all have been does the caller wait. */
  lemma AcceptsFollowTheLog(actions: seq<Action>)
    requires Run(START, actions).mux.failed.None?
    ensures var w := Run(START, actions);
            var all, handed := OpenedIds(w.log), HandedIds(w.log);
            Accept(w.mux).1 == if |handed| < |all| then Accepted(all[|handed|]) else AcceptBlocked
  {
    hide Run, Inv, OpenedIds, HandedIds;
    Reachable(actions);
    SessionsAreAcceptedInOrder(actions);
    var w := Run(START, actions);
    if w.mux.accepted != [] {
      HeadIsOpen(w);
    }
  }

  // ----- The host -----

  /** What is wrong with a frame from the host, if anything. */
  function Verdict(log: seq<Event>, f: MuxFrame): (r: Option<Violation>)
  {
    var l := LedgerOf(log, f.id);
    match f
    case OpenOk(_, _) => Some(UnexpectedOpenResponse)
    case OpenErr(_, _) => Some(UnexpectedOpenResponse)
    case Open(id, _) =>
      if id % 2 == 0 then Some(InvalidSessionId)
      else if IsOpen(log, id) then Some(DuplicateOpen)
      else if Waiting(log) >= 128 then Some(ControlQueueFull)
      else None
    case _ =>
      if f.id % 2 == 0 then Some(InvalidSessionId)
      else if !IsOpen(log, f.id) then Some(UnknownSession)
      else if f.Data? && |l.received| + |f.bytes| > |l.taken| + 0x4_0000 then Some(ReceiveCreditExceeded)
      else if f.Window? && l.credit + f.credit >= |l.written| + 0x1_0000_0000_0000_0000 then Some(SendCreditOverflow)
      else None
  }

  /** The session kinds that are served. */
  predicate Opens(f: MuxFrame)
  {
    f.Open? && (f.metadata == Ascii("exec") || f.metadata == Ascii("watch") || f.metadata == Ascii("file"))
  }

  lemma TheKinds()
    ensures KIND_EXEC == Ascii("exec") && KIND_WATCH == Ascii("watch") && KIND_FILE == Ascii("file")
  {
  }

  /** A frame is taken or refused, with its reason, as the history says; an Open frame opens a session of a served kind. */
  lemma ArrivalsFollowTheLog(actions: seq<Action>, f: MuxFrame)
    requires Run(START, actions).mux.failed.None?
    ensures Incoming(Run(START, actions).mux, f).1 == Verdict(Run(START, actions).log, f)
    ensures Verdict(Run(START, actions).log, f).None? ==>
              Step(Run(START, actions), DoIncoming(f)).log == Run(START, actions).log + [if Opens(f) then Opened(f.id) else Arrived(f)]
  {
    TheKinds();
    hide Run, LedgerOf, Scan, Queued, Frames, IsOpen, AllDue, ControlFrames;
    Reachable(actions);
    SessionsAreWhatTheLogSays(actions, f.id);
    ControlFramesAreSentInOrder(actions);
    var w := Run(START, actions);
    assert ViewOk(f.id, ViewOf(w, f.id));
  }

  // ----- The writer -----

  /** What one session has to send next: its first chunk not yet shipped, then its FIN once the handle is gone. */
  function NextOf(log: seq<Event>, id: u64): (r: Option<MuxFrame>)
  {
    var es := Since(log, id);
    var taken, shipped := Taken(es, id), Shipped(es, id);
    if !IsOpen(log, id) then None
    else if |shipped| < |taken| then Some(Data(id, taken[|shipped|]))
    else if WasDropped(es, id) && !FinEmitted(es, id) then Some(Fin(id))
    else None
  }

  /**
   The writer sends the control frame that became due first; with none waiting, what the session at the head of the
   ready queue has to send; and it waits only if no session has anything to send. The ready queue holds exactly the
   sessions that have.
   */
  lemma WriterFollowsTheLog(actions: seq<Action>)
    requires Run(START, actions).mux.failed.None?
    ensures var w := Run(START, actions);
            var due, sent, ready := AllDue(w.log), ControlFrames(w.Sent()), w.mux.ready;
            && (forall id :: id in ready <==> NextOf(w.log, id).Some?)
            && NextFrame(w.mux).1 == if |sent| < |due| then Emit(due[|sent|])
                                     else if ready == [] then WriterBlocked
                                     else Emit(NextOf(w.log, ready[0]).value)
  {
    hide Run, Frames, AllDue, ControlFrames, NextOf, Inv, NextReady;
    Reachable(actions);
    ControlFramesAreSentInOrder(actions);
    var w := Run(START, actions);
    forall id: u64
      ensures id in w.mux.ready <==> NextOf(w.log, id).Some?
    {
      ReadyHasNext(actions, id);
    }
    if w.mux.control == [] {
      if w.mux.ready == [] {
        NothingReady(w.mux);
      } else {
        ReadyHasNext(actions, w.mux.ready[0]);
        HeadSendsNext(w);
      }
    }
  }

  lemma ReadyHasNext(actions: seq<Action>, id: u64)
    requires Run(START, actions).mux.failed.None?
    ensures var w := Run(START, actions);
            && (id in w.mux.ready <==> NextOf(w.log, id).Some?)
            && (id in w.mux.sessions ==> NextOf(w.log, id) == HeadOf(w.mux.sessions[id], id))
  {
    hide Run, Since, Taken, Shipped, WasDropped, FinEmitted, IsOpen;
    SessionsAreWhatTheLogSays(actions, id);
    ReadyMeansWork(actions, id);
  }

  function HeadOf(s: Session, id: u64): (r: Option<MuxFrame>)
  {
    if s.outbound != [] then Some(Data(id, s.outbound[0])) else if s.OwesFin() then Some(Fin(id)) else None
  }

  lemma HeadSendsNext(w: World)
    requires Inv(w) && w.mux.failed.None? && w.mux.ready != []
    ensures var id := w.mux.ready[0];
            id in w.mux.sessions && HeadOf(w.mux.sessions[id], id).Some? && NextReady(w.mux).1 == Emit(HeadOf(w.mux.sessions[id], id).value)
  {
    ReadyHead(w);
  }

  // ----- Failure -----

  function FirstFailure(actions: seq<Action>): (r: Option<Reason>)
  {
    if actions == [] then None
    else if actions[0].DoFail? then Some(actions[0].reason)
    else FirstFailure(actions[1..])
  }

  lemma {:induction false} FailuresFrom(w: World, actions: seq<Action>)
    ensures Run(w, actions).mux.failed == if w.mux.failed.Some? then w.mux.failed else FirstFailure(actions)
    decreases |actions|
  {
    if actions != [] {
      FailuresFrom(Step(w, actions[0]), actions[1..]);
      OnlyFailing(w, actions[0]);
    }
  }

  lemma OnlyFailing(w: World, a: Action)
    ensures Step(w, a).mux.failed == if w.mux.failed.None? && a.DoFail? then Some(a.reason) else w.mux.failed
  {
    hide LedgerOf, IsHostSessionId;
    if a.DoNext? {
      ReadyDoesNotFail(w.mux);
    }
  }

  lemma {:induction false} ReadyDoesNotFail(st: State)
    ensures NextReady(st).0.failed == st.failed
    decreases |st.ready|
  {
    if st.ready != [] {
      var id, rest := st.ready[0], st.(ready := st.ready[1..]);
      ReadyDoesNotFail(rest);
      if id in st.sessions {
        ReadyDoesNotFail(rest.(sessions := st.sessions[id := st.sessions[id].(scheduled := false)]));
      }
    }
  }

  /**
   When the mux first fails, nothing waits any more and every session is reset and otherwise as it was; a read that
   had taken bytes can still return, because there is room for its credit.
   */
  lemma FailingResetsEverything(actions: seq<Action>, reason: Reason, id: u64)
    requires FirstFailure(actions).None?
    ensures var w, w' := Run(START, actions), Step(Run(START, actions), DoFail(reason));
            && w'.mux.control == [] && w'.mux.ready == [] && w'.mux.accepted == [] && w'.log == w.log
            && (id in w'.mux.sessions <==> id in w.mux.sessions)
            && (id in w.mux.sessions ==> w'.mux.sessions[id] == w.mux.sessions[id].(resetReason := Some(reason)))
            && (forall k :: 0 <= k < |w.Ledger(id).inFlight| ==>
                  w.Ledger(id).inFlight[k] < U32_LIMIT && ReadCredit(w'.mux, id, w.Ledger(id).inFlight[k]).1 == CreditQueued)
  {
    hide Run, LedgerOf, Scan, Queued, Frames;
    FailuresFrom(START, actions);
    Reachable(actions);
    assert ViewOk(id, ViewOf(Run(START, actions), id));
  }

  /** The mux fails with the first reason it is given, and every operation then answers with that reason. */
  lemma FailureAnswers(actions: seq<Action>, id: u64, n: nat, buf: seq<byte>)
    requires FirstFailure(actions).Some? && n > 0 && buf != []
    ensures var st, reason := Run(START, actions).mux, FirstFailure(actions).value;
            && ReadPop(st, id, n) == (st, ReadFailed(reason))
            && Write(st, id, buf) == (st, WriteFailed(reason))
            && Flush(st, id) == FlushFailed(reason)
            && Accept(st) == (st, NoMoreSessions)
            && NextFrame(st) == (st, WriterEnds)
            && RemoteClosed(st, id)
  {
    hide Run;
    FailuresFrom(START, actions);
  }
}
