/** The order in which sessions are accepted, and what a flush promises. */
module MuxOrder {
  import opened Bytes
  import opened MuxCodec
  import opened Mux
  import opened MuxRuns
  import opened MuxInvariant

  function OpenedIds(log: seq<Event>): (r: seq<u64>)
  {
    if log == [] then []
    else OpenedIds(log[..|log| - 1]) + (if log[|log| - 1].Opened? then [log[|log| - 1].id] else [])
  }

  function HandedIds(log: seq<Event>): (r: seq<u64>)
  {
    if log == [] then []
    else HandedIds(log[..|log| - 1]) + (if log[|log| - 1].Handed? then [log[|log| - 1].id] else [])
  }

  lemma IdsSnoc(log: seq<Event>, e: Event)
    ensures OpenedIds(log + [e]) == OpenedIds(log) + (if e.Opened? then [e.id] else [])
    ensures HandedIds(log + [e]) == HandedIds(log) + (if e.Handed? then [e.id] else [])
  {
    assert (log + [e])[..|log|] == log;
  }

  /** The sessions handed out, then those still waiting, are those opened, in the order they were opened. */
  ghost predicate InOrder(w: World)
  {
    w.mux.failed.None? ==> OpenedIds(w.log) == HandedIds(w.log) + w.mux.accepted
  }

  lemma DrainedIsNotWaiting(w: World, id: u64)
    requires Inv(w) && id in w.mux.sessions && w.mux.sessions[id].localFin
    ensures id !in w.mux.accepted
  {
    assert ViewOk(id, ViewOf(w, id));
  }

  lemma HeadIsOpen(w: World)
    requires Inv(w) && w.mux.accepted != []
    ensures w.mux.accepted[0] in w.mux.sessions
  {
    assert ViewOk(w.mux.accepted[0], ViewOf(w, w.mux.accepted[0]));
  }

  /** Apart from handing out and opening, no step touches the sessions that wait. */
  lemma OthersKeepWaiting(w: World, a: Action)
    requires Inv(w) && Step(w, a).mux.failed.None?
    requires !a.DoAccept? && !(a.DoIncoming? && a.frame.Open?)
    ensures w.mux.failed.None? && Step(w, a).mux.accepted == w.mux.accepted
    ensures Step(w, a).log == w.log || exists e :: Step(w, a).log == w.log + [e] && !e.Opened? && !e.Handed?
  {
    hide Inv, LedgerOf, Frames, IsHostSessionId;
    if a.DoRead? && w.Ledger(a.id).live {
      LiveReadKeepsSession(w, a.id, a.capacity);
    }
    if a.DoNext? && w.mux.failed.None? && w.mux.control == [] && w.mux.ready != [] {
      ReadyHead(w);
      var id := w.mux.ready[0];
      if w.mux.sessions[id].localFin { DrainedIsNotWaiting(w, id); }
    }
    if a.DoIncoming? && a.frame.id in w.mux.sessions && w.mux.sessions[a.frame.id].localFin {
      DrainedIsNotWaiting(w, a.frame.id);
    }
  }

  lemma AcceptingKeepsOrder(w: World)
    requires Inv(w) && InOrder(w)
    ensures InOrder(Step(w, DoAccept))
  {
    hide Inv, OpenedIds, HandedIds;
    if w.mux.failed.None? && w.mux.accepted != [] {
      HeadIsOpen(w);
      IdsSnoc(w.log, Handed(w.mux.accepted[0]));
      assert w.mux.accepted == [w.mux.accepted[0]] + w.mux.accepted[1..];
    }
  }

  lemma OpeningKeepsOrder(w: World, f: MuxFrame)
    requires InOrder(w) && f.Open?
    ensures InOrder(Step(w, DoIncoming(f)))
  {
    hide OpenedIds, HandedIds, IsHostSessionId, MetadataSupported;
    IdsSnoc(w.log, Opened(f.id));
    IdsSnoc(w.log, Arrived(f));
  }

  lemma StepKeepsOrder(w: World, a: Action)
    requires Inv(w) && InOrder(w)
    ensures InOrder(Step(w, a))
  {
    hide Inv, LedgerOf, Frames, OpenedIds, HandedIds, Incoming, Accept, Write, NextFrame, ReadPop, Close, Fail;
    var w' := Step(w, a);
    if w'.mux.failed.None? {
      if a.DoAccept? {
        AcceptingKeepsOrder(w);
      } else if a.DoIncoming? && a.frame.Open? {
        OpeningKeepsOrder(w, a.frame);
      } else {
        OthersKeepWaiting(w, a);
        if w'.log != w.log {
          var e :| w'.log == w.log + [e] && !e.Opened? && !e.Handed?;
          IdsSnoc(w.log, e);
        }
      }
    }
  }

  lemma {:induction false} RunKeepsOrder(w: World, actions: seq<Action>)
    requires Inv(w) && InOrder(w)
    ensures InOrder(Run(w, actions))
    decreases |actions|
  {
    hide Inv, InOrder, Step;
    if actions != [] {
      StepKeeps(w, actions[0]);
      StepKeepsOrder(w, actions[0]);
      RunKeepsOrder(Step(w, actions[0]), actions[1..]);
    }
  }

  /** Until the mux fails, sessions are handed out in the order they were opened, each exactly once. */
  lemma SessionsAreAcceptedInOrder(actions: seq<Action>)
    requires Run(START, actions).mux.failed.None?
    ensures var w := Run(START, actions); OpenedIds(w.log) == HandedIds(w.log) + w.mux.accepted
  {
    hide Run;
    Reachable([]);
    StartIsFine();
    RunKeepsOrder(START, actions);
  }

  lemma StartIsFine()
    ensures Run(START, []) == START && InOrder(START)
  {
  }

  /** A flush that returns has seen every byte written so far handed to the writer, in order. */
  lemma FlushedMeansSent(actions: seq<Action>, id: u64)
    requires Flush(Run(START, actions).mux, id).Flushed?
    ensures var l := Run(START, actions).Ledger(id); l.sent == l.written
  {
    hide Run, LedgerOf, Scan, Queued, Frames;
    Reachable(actions);
    var w := Run(START, actions);
    assert ViewOk(id, ViewOf(w, id));
  }
}
