/** What every step of the guest mux keeps, session id by session id. */
module MuxInvariant {
  import opened Bytes
  import opened Utf8
  import opened MuxCodec
  import opened Mux
  import opened MuxRuns

  /** Everything about one session id: its session, its place in the queues and its history. */
  datatype View = View(
    session: Option<Session>,
    isReady: bool,
    isAccepted: bool,
    failed: bool,
    emittedPhase: Phase,
    phase: Phase,
    queued: nat,
    ledger: Ledger)

  function ViewOf(w: World, id: u64): (v: View)
  {
    View(if id in w.mux.sessions then Some(w.mux.sessions[id]) else None,
         id in w.mux.ready,
         id in w.mux.accepted,
         w.mux.failed.Some?,
         Scan(w.Sent(), id),
         Scan(w.Sent() + w.mux.control, id),
         Queued(w.mux.control, id),
         w.Ledger(id))
  }

  /** Byte accounting, kept even after a failure. */
  ghost predicate SessionOk(id: u64, s: Session, l: Ledger)
  {
    && IsHostSessionId(id)
    && l.received == l.taken + s.inbound
    && |s.inbound| <= RECEIVE_QUEUE_BYTES
    && l.written == l.sent + Flatten(s.outbound)
    && s.outboundBytes == |Flatten(s.outbound)| <= SEND_QUEUE_BYTES
    && |l.sent| + s.outboundBytes + s.sendCredit == l.credit
    && s.sendCredit <= USIZE_MAX
    && (forall c :: c in s.outbound ==> 0 < |c| <= MAX_DATA_LEN)
    && (s.finSent ==> s.localFin && s.outbound == [])
  }

  /** Who may still hold or receive the handle. */
  ghost predicate HandleOk(v: View)
  {
    && (v.ledger.live ==> v.session.Some? && !v.session.value.localFin && !v.isAccepted)
    && (v.isAccepted ==> v.session.Some? && !v.session.value.localFin)
    && (!v.ledger.live ==> v.ledger.inFlight == [])
    && (forall k :: 0 <= k < |v.ledger.inFlight| ==> 0 < v.ledger.inFlight[k] <= RECEIVE_QUEUE_BYTES)
  }

  /** Scheduling, receive credit and frame order, kept until a failure. */
  ghost predicate RunningOk(v: View)
  {
    && (v.isReady <==> v.session.Some? && v.session.value.scheduled)
    && v.phase == (if v.session.Some? && !v.session.value.finSent then Serving else Idle)
    && (v.session.None? || v.session.value.finSent ==> v.queued == 0)
    && (v.session.Some? ==>
          var s := v.session.value;
          && (s.scheduled <==> s.outbound != [] || s.OwesFin())
          && (!s.localFin ==> v.ledger.live || v.isAccepted)
          && v.ledger.granted + |s.inbound| + Sum(v.ledger.inFlight) == RECEIVE_QUEUE_BYTES + |v.ledger.received|
          && v.ledger.announced + v.queued == v.ledger.granted)
  }

  ghost predicate ViewOk(id: u64, v: View)
  {
    match v.session
    case None => v.emittedPhase != Broken && HandleOk(v) && (!v.failed ==> RunningOk(v))
    case Some(s) => v.emittedPhase != Broken && HandleOk(v) && (!v.failed ==> RunningOk(v)) && SessionOk(id, s, v.ledger)
  }

  /** The frames the mux produces: opening answers, windows, non-empty data chunks and FINs. */
  ghost predicate Sendable(f: MuxFrame)
  {
    && IsHostSessionId(f.id)
    && !f.Open? && !f.Rst?
    && (f.OpenErr? ==> f.reason == UNSUPPORTED_KIND)
    && (f.Data? ==> 0 < |f.bytes| <= MAX_DATA_LEN)
    && (f.OpenOk? || f.Window? ==> 0 < f.credit <= RECEIVE_QUEUE_BYTES)
  }

  lemma SendableEncodes(f: MuxFrame)
    requires Sendable(f)
    ensures Wellformed(f) && EncodeFrame(f).Ok?
  {
    if f.OpenErr? {
      AsciiIsUtf8(UNSUPPORTED_KIND);
    }
  }

  /** What waits in the control queue is the answer to an open or a window: nothing else is put there. */
  predicate ControlFrame(f: MuxFrame)
  {
    f.OpenOk? || f.OpenErr? || f.Window?
  }

  ghost predicate QueuesOk(w: World)
  {
    && NoRepeats(w.mux.ready)
    && NoRepeats(w.mux.accepted)
    && |w.mux.control| <= MAX_CONTROL_FRAMES
    && (forall f :: f in w.mux.control ==> Sendable(f) && ControlFrame(f))
    && (forall f :: f in w.Sent() ==> Sendable(f))
  }

  ghost predicate Inv(w: World)
  {
    QueuesOk(w) && forall id: u64 :: ViewOk(id, ViewOf(w, id))
  }

  // ----- How one event moves the view of an id -----

  function Rebase(v: View, st: State, id: u64): (r: View)
  {
    v.(session := if id in st.sessions then Some(st.sessions[id]) else None,
       isReady := id in st.ready,
       isAccepted := id in st.accepted,
       failed := st.failed.Some?)
  }

  lemma QuietEvent(w: World, st: State, e: Event, id: u64)
    requires !e.Emitted? && st.control == w.mux.control
    ensures var w' := World(st, w.log + [e]);
            && w'.Sent() == w.Sent()
            && ViewOf(w', id) == Rebase(ViewOf(w, id), st, id).(ledger := Note(w.Ledger(id), id, e))
  {
    LedgerSnoc(w.log, e, id);
    FramesSnoc(w.log, e);
    assert w.Sent() + [] == w.Sent();
  }

  lemma QueueingEvent(w: World, st: State, f: MuxFrame, e: Event, id: u64)
    requires !e.Emitted? && st.control == w.mux.control + [f]
    ensures var w', v := World(st, w.log + [e]), ViewOf(w, id);
            && w'.Sent() == w.Sent()
            && ViewOf(w', id) == Rebase(v, st, id).(phase := Advance(v.phase, f, id),
                                                    queued := v.queued + CreditIn(f, id),
                                                    ledger := Note(v.ledger, id, e))
  {
    var w' := World(st, w.log + [e]);
    LedgerSnoc(w.log, e, id);
    FramesSnoc(w.log, e);
    assert w.Sent() + [] == w.Sent();
    QueuedSnoc(w.mux.control, f, id);
    assert w'.Sent() + st.control == (w.Sent() + w.mux.control) + [f];
    ScanSnoc(w.Sent() + w.mux.control, f, id);
  }

  lemma ControlEmission(w: World, st: State, id: u64)
    requires w.mux.control != [] && st.control == w.mux.control[1..]
    requires ViewOf(w, id).phase != Broken
    ensures var f, v := w.mux.control[0], ViewOf(w, id);
            var w' := World(st, w.log + [Emitted(f)]);
            var v' := ViewOf(w', id);
            && w'.Sent() == w.Sent() + [f]
            && v'.emittedPhase != Broken
            && v.queued == CreditIn(f, id) + v'.queued
            && v' == Rebase(v, st, id).(emittedPhase := v'.emittedPhase,
                                        queued := v'.queued,
                                        ledger := Note(v.ledger, id, Emitted(f)))
  {
    var f := w.mux.control[0];
    var w' := World(st, w.log + [Emitted(f)]);
    LedgerSnoc(w.log, Emitted(f), id);
    FramesSnoc(w.log, Emitted(f));
    assert w'.Sent() + st.control == w.Sent() + w.mux.control;
    ScanPrefix(w'.Sent(), st.control, id);
  }

  lemma SessionEmission(w: World, st: State, f: MuxFrame, id: u64)
    requires w.mux.control == [] == st.control
    ensures var w', v := World(st, w.log + [Emitted(f)]), ViewOf(w, id);
            && w'.Sent() == w.Sent() + [f]
            && ViewOf(w', id) == Rebase(v, st, id).(emittedPhase := Advance(v.phase, f, id),
                                                    phase := Advance(v.phase, f, id),
                                                    ledger := Note(v.ledger, id, Emitted(f)))
  {
    var w' := World(st, w.log + [Emitted(f)]);
    LedgerSnoc(w.log, Emitted(f), id);
    FramesSnoc(w.log, Emitted(f));
    assert w.Sent() + w.mux.control == w.Sent();
    assert w'.Sent() + st.control == w'.Sent();
    ScanSnoc(w.Sent(), f, id);
  }

  /** A drained session is in no queue, so dropping it from the map is all that pruning does. */
  lemma PruneOk(w: World, id: u64)
    requires Inv(w)
    ensures Inv(w.(mux := Prune(w.mux, id)))
  {
    hide SessionOk, Scan, Queued, LedgerOf, Frames, Sum, Flatten, Sendable;
    if id in w.mux.sessions && w.mux.sessions[id].IsDrained() {
      var w' := w.(mux := Prune(w.mux, id));
      assert ViewOk(id, ViewOf(w, id));
      assert id !in w.mux.accepted;
      PruneView(id, ViewOf(w, id));
      WithoutNoRepeats(w.mux.ready, id);
      QueuesKept(w, w');
      forall i: u64 | i != id
        ensures ViewOf(w', i) == ViewOf(w, i)
      {
      }
      Carry(w, w', id, ViewOf(w, id).(session := None, isReady := false));
    }
  }

  lemma PruneView(id: u64, v: View)
    requires ViewOk(id, v) && v.session.Some? && v.session.value.IsDrained()
    ensures !v.isAccepted && (!v.failed ==> !v.isReady)
    ensures ViewOk(id, v.(session := None, isReady := false))
  {
  }

  lemma {:induction false} WithoutNoRepeats(q: seq<u64>, id: u64)
    requires NoRepeats(q)
    ensures NoRepeats(Without(q, id))
  {
    if q != [] {
      WithoutNoRepeats(q[1..], id);
      var rest := Without(q[1..], id);
      assert forall j :: 0 <= j < |rest| ==> rest[j] in rest && rest[j] in q[1..];
    }
  }

  lemma QueuesKept(w: World, w': World)
    requires QueuesOk(w) && w'.mux.control == w.mux.control && w'.Sent() == w.Sent()
    requires NoRepeats(w'.mux.ready) && NoRepeats(w'.mux.accepted)
    ensures QueuesOk(w')
  {
  }

  lemma QueuesGrow(w: World, w': World, f: MuxFrame)
    requires QueuesOk(w) && w'.mux.control == w.mux.control + [f] && w'.Sent() == w.Sent()
    requires |w.mux.control| < MAX_CONTROL_FRAMES && Sendable(f) && ControlFrame(f)
    requires NoRepeats(w'.mux.ready) && NoRepeats(w'.mux.accepted)
    ensures QueuesOk(w')
  {
  }

  /** If only one id's view changed, that view is all there is to check. */
  lemma Carry(w: World, w': World, id: u64, v: View)
    requires Inv(w) && QueuesOk(w')
    requires ViewOf(w', id) == v && ViewOk(id, v)
    requires forall i: u64 :: i != id ==> ViewOf(w', i) == ViewOf(w, i)
    ensures Inv(w')
  {
    hide ViewOk, ViewOf, QueuesOk;
    forall i: u64
      ensures ViewOk(i, ViewOf(w', i))
    {
      assert ViewOk(i, ViewOf(w, i));
    }
  }

  /** A step that touches one session id only. */
  ghost predicate Local(st: State, st': State, id: u64)
  {
    && st.failed.Some? == st'.failed.Some?
    && NoRepeats(st'.ready)
    && NoRepeats(st'.accepted)
    && (forall i :: i != id ==> (i in st.sessions <==> i in st'.sessions))
    && (forall i :: i != id && i in st.sessions ==> st'.sessions[i] == st.sessions[i])
    && (forall i :: i != id ==> (i in st.ready <==> i in st'.ready))
    && (forall i :: i != id ==> (i in st.accepted <==> i in st'.accepted))
  }

  function EventId(e: Event): (id: u64)
  {
    if e.Emitted? || e.Arrived? then e.frame.id else e.id
  }

  lemma QuietOthers(w: World, st: State, e: Event)
    requires Local(w.mux, st, EventId(e)) && !e.Emitted? && st.control == w.mux.control
    ensures forall i: u64 :: i != EventId(e) ==> ViewOf(World(st, w.log + [e]), i) == ViewOf(w, i)
  {
    forall i: u64 | i != EventId(e)
      ensures ViewOf(World(st, w.log + [e]), i) == ViewOf(w, i)
    {
      QuietEvent(w, st, e, i);
    }
  }

  lemma QuietKeeps(w: World, st: State, e: Event, v: View)
    requires Inv(w) && Local(w.mux, st, EventId(e))
    requires !e.Emitted? && st.control == w.mux.control
    requires v == Rebase(ViewOf(w, EventId(e)), st, EventId(e)).(ledger := Note(w.Ledger(EventId(e)), EventId(e), e))
    requires ViewOk(EventId(e), v)
    ensures Inv(World(st, w.log + [e]))
  {
    hide ViewOk, ViewOf, Scan, Queued, LedgerOf, Frames;
    var w' := World(st, w.log + [e]);
    QuietOthers(w, st, e);
    QuietEvent(w, st, e, EventId(e));
    QueuesKept(w, w');
    Carry(w, w', EventId(e), v);
  }

  lemma QueueingOthers(w: World, st: State, f: MuxFrame, e: Event)
    requires Local(w.mux, st, f.id) && EventId(e) == f.id && !e.Emitted? && st.control == w.mux.control + [f]
    ensures forall i: u64 :: i != f.id ==> ViewOf(World(st, w.log + [e]), i) == ViewOf(w, i)
  {
    forall i: u64 | i != f.id
      ensures ViewOf(World(st, w.log + [e]), i) == ViewOf(w, i)
    {
      QueueingEvent(w, st, f, e, i);
    }
  }

  lemma QueueingKeeps(w: World, st: State, f: MuxFrame, e: Event, v: View)
    requires Inv(w) && Local(w.mux, st, f.id) && EventId(e) == f.id
    requires !e.Emitted? && st.control == w.mux.control + [f]
    requires |w.mux.control| < MAX_CONTROL_FRAMES && Sendable(f) && ControlFrame(f)
    requires var v0 := ViewOf(w, f.id);
             v == Rebase(v0, st, f.id).(phase := Advance(v0.phase, f, f.id), queued := v0.queued + CreditIn(f, f.id),
                                        ledger := Note(v0.ledger, f.id, e))
    requires ViewOk(f.id, v)
    ensures Inv(World(st, w.log + [e]))
  {
    hide ViewOk, ViewOf, Scan, Queued, LedgerOf, Frames;
    var w' := World(st, w.log + [e]);
    QueueingOthers(w, st, f, e);
    QueueingEvent(w, st, f, e, f.id);
    QueuesGrow(w, w', f);
    Carry(w, w', f.id, v);
  }

  lemma EmissionOthers(w: World, st: State, f: MuxFrame)
    requires Local(w.mux, st, f.id) && w.mux.control == [] == st.control
    ensures forall i: u64 :: i != f.id ==> ViewOf(World(st, w.log + [Emitted(f)]), i) == ViewOf(w, i)
  {
    assert w.Sent() + w.mux.control == w.Sent();
    forall i: u64 | i != f.id
      ensures ViewOf(World(st, w.log + [Emitted(f)]), i) == ViewOf(w, i)
    {
      SessionEmission(w, st, f, i);
    }
  }

  lemma EmissionKeeps(w: World, st: State, f: MuxFrame, v: View)
    requires Inv(w) && Local(w.mux, st, f.id)
    requires w.mux.control == [] == st.control && Sendable(f)
    requires var v0 := ViewOf(w, f.id);
             v == Rebase(v0, st, f.id).(emittedPhase := Advance(v0.phase, f, f.id), phase := Advance(v0.phase, f, f.id),
                                        ledger := Note(v0.ledger, f.id, Emitted(f)))
    requires ViewOk(f.id, v)
    ensures Inv(World(st, w.log + [Emitted(f)]))
  {
    hide ViewOk, ViewOf, Scan, Queued, LedgerOf, Frames;
    var w' := World(st, w.log + [Emitted(f)]);
    EmissionOthers(w, st, f);
    SessionEmission(w, st, f, f.id);
    Carry(w, w', f.id, v);
  }

  // ----- Handle operations -----

  lemma HandView(id: u64, v: View)
    requires ViewOk(id, v) && v.isAccepted
    ensures ViewOk(id, v.(isAccepted := false, ledger := Note(v.ledger, id, Handed(id))))
  {
  }

  lemma AcceptKeeps(w: World)
    requires Inv(w) && w.mux.failed.None? && w.mux.accepted != []
    ensures w.mux.accepted[0] in w.mux.sessions
    ensures Inv(World(w.mux.(accepted := w.mux.accepted[1..]), w.log + [Handed(w.mux.accepted[0])]))
  {
    hide SessionOk, Scan, Queued, LedgerOf, Frames, Sum, Flatten;
    var id := w.mux.accepted[0];
    var v := ViewOf(w, id);
    assert ViewOk(id, v);
    HandView(id, v);
    QuietKeeps(w, w.mux.(accepted := w.mux.accepted[1..]), Handed(id),
               v.(isAccepted := false, ledger := Note(v.ledger, id, Handed(id))));
  }

  lemma DropView(id: u64, v: View)
    requires ViewOk(id, v) && v.ledger.live && v.ledger.inFlight == []
    ensures v.failed ==> ViewOk(id, v.(ledger := Note(v.ledger, id, Dropped(id))))
    ensures !v.failed ==>
              ViewOk(id, v.(session := Some(v.session.value.(localFin := true, scheduled := true)), isReady := true,
                            ledger := Note(v.ledger, id, Dropped(id))))
  {
  }

  lemma DropKeeps(w: World, id: u64)
    requires Inv(w) && w.Ledger(id).live && w.Ledger(id).inFlight == []
    ensures Inv(World(Close(w.mux, id), w.log + [Dropped(id)]))
  {
    hide SessionOk, Scan, Queued, LedgerOf, Frames, Sum, Flatten;
    var st, v := Close(w.mux, id), ViewOf(w, id);
    assert ViewOk(id, v);
    DropView(id, v);
    QuietKeeps(w, st, Dropped(id), Rebase(v, st, id).(ledger := Note(v.ledger, id, Dropped(id))));
  }

  lemma PopView(id: u64, v: View, k: nat)
    requires ViewOk(id, v) && v.ledger.live && 0 < k <= |v.session.value.inbound|
    ensures var s, l := v.session.value, v.ledger;
            ViewOk(id, v.(session := Some(s.(inbound := s.inbound[k..])), ledger := Note(l, id, Popped(id, s.inbound[..k]))))
  {
    var s, l := v.session.value, v.ledger;
    SumConcat(l.inFlight, [k]);
    assert Sum([k]) == k + Sum([k][1..]);
    assert l.taken + s.inbound[..k] + s.inbound[k..] == l.taken + s.inbound;
  }

  /** A handle never reads past its own drop, so its reads prune nothing. */
  lemma LiveReadKeepsSession(w: World, id: u64, n: nat)
    requires Inv(w) && w.Ledger(id).live
    ensures var (st, r) := ReadPop(w.mux, id, n);
            && !r.ReadMissing?
            && (!r.ReadBytes? ==> st == w.mux)
  {
    assert ViewOk(id, ViewOf(w, id));
  }

  lemma ReadKeeps(w: World, id: u64, n: nat)
    requires Inv(w) && w.Ledger(id).live && ReadPop(w.mux, id, n).1.ReadBytes?
    ensures var (st, r) := ReadPop(w.mux, id, n); Inv(World(st, w.log + [Popped(id, r.bytes)]))
  {
    hide SessionOk, Scan, Queued, LedgerOf, Frames, Sum, Flatten;
    var (st, r) := ReadPop(w.mux, id, n);
    var v := ViewOf(w, id);
    assert ViewOk(id, v);
    PopView(id, v, |r.bytes|);
    QuietKeeps(w, st, Popped(id, r.bytes), Rebase(v, st, id).(ledger := Note(v.ledger, id, Popped(id, r.bytes))));
  }

  lemma CreditView(id: u64, v: View, k: nat)
    requires ViewOk(id, v) && v.ledger.live && k < |v.ledger.inFlight|
    ensures var f, l := Window(id, v.ledger.inFlight[k]), v.ledger;
            && Sendable(f)
            && ViewOk(id, v.(phase := Advance(v.phase, f, id), queued := v.queued + CreditIn(f, id),
                             ledger := Note(l, id, Credited(id, k))))
    ensures v.failed ==> ViewOk(id, v.(ledger := Note(v.ledger, id, GaveUp(id, k))))
  {
    SumRemove(v.ledger.inFlight, k);
  }

  lemma CreditKeeps(w: World, id: u64, k: nat)
    requires Inv(w) && w.Ledger(id).live && k < |w.Ledger(id).inFlight|
    ensures w.Ledger(id).inFlight[k] <= RECEIVE_QUEUE_BYTES
    ensures var (st, r) := ReadCredit(w.mux, id, w.Ledger(id).inFlight[k]);
            && (r.CreditQueued? ==> Inv(World(st, w.log + [Credited(id, k)])))
            && (r.CreditFailed? ==> st == w.mux && Inv(World(st, w.log + [GaveUp(id, k)])))
  {
    hide SessionOk, Scan, Queued, LedgerOf, Frames, Sum, Flatten;
    var v := ViewOf(w, id);
    assert ViewOk(id, v);
    var credit := v.ledger.inFlight[k];
    CreditView(id, v, k);
    var f := Window(id, credit);
    var (st, r) := ReadCredit(w.mux, id, credit);
    if r.CreditQueued? {
      QueueingKeeps(w, st, f, Credited(id, k),
                    v.(phase := Advance(v.phase, f, id), queued := v.queued + CreditIn(f, id),
                       ledger := Note(v.ledger, id, Credited(id, k))));
    } else if r.CreditFailed? {
      QuietKeeps(w, st, GaveUp(id, k), v.(ledger := Note(v.ledger, id, GaveUp(id, k))));
    }
  }

  lemma WriteView(id: u64, v: View, chunk: seq<byte>)
    requires ViewOk(id, v) && !v.failed && v.ledger.live
    requires 0 < |chunk| == Writable(v.session.value, |chunk|)
    ensures var s := v.session.value;
            var s' := s.(outbound := s.outbound + [chunk], outboundBytes := s.outboundBytes + |chunk|,
                         sendCredit := s.sendCredit - |chunk|, scheduled := true);
            ViewOk(id, v.(session := Some(s'), isReady := true, ledger := Note(v.ledger, id, Took(id, chunk))))
  {
    var s, l := v.session.value, v.ledger;
    FlattenSnoc(s.outbound, chunk);
    assert l.sent + (Flatten(s.outbound) + chunk) == l.written + chunk;
    assert s.outbound + [chunk] != [];
  }

  lemma WriteKeeps(w: World, id: u64, buf: seq<byte>)
    requires Inv(w) && w.Ledger(id).live && Write(w.mux, id, buf).1.Wrote?
    ensures var (st, r) := Write(w.mux, id, buf);
            r.count <= |buf| && Inv(World(st, w.log + [Took(id, buf[..r.count])]))
  {
    hide SessionOk, Scan, Queued, LedgerOf, Frames, Sum, Flatten;
    var (st, r) := Write(w.mux, id, buf);
    var e, v := Took(id, buf[..r.count]), ViewOf(w, id);
    assert ViewOk(id, v);
    WriteView(id, v, buf[..r.count]);
    QuietKeeps(w, st, e, Rebase(v, st, id).(ledger := Note(v.ledger, id, e)));
  }

  // ----- The writer -----

  lemma EmitView(id: u64, v: View, f: MuxFrame, p: Phase, q: nat)
    requires ViewOk(id, v) && !v.failed && p != Broken && v.queued == CreditIn(f, id) + q
    requires ControlFrame(f)
    ensures ViewOk(id, v.(emittedPhase := p, queued := q, ledger := Note(v.ledger, id, Emitted(f))))
  {
  }

  lemma NextControlKeeps(w: World)
    requires Inv(w) && w.mux.failed.None? && w.mux.control != []
    ensures Inv(World(w.mux.(control := w.mux.control[1..]), w.log + [Emitted(w.mux.control[0])]))
  {
    var f := w.mux.control[0];
    var st := w.mux.(control := w.mux.control[1..]);
    forall i: u64
      ensures ViewOk(i, ViewOf(World(st, w.log + [Emitted(f)]), i))
    {
      assert ViewOk(i, ViewOf(w, i));
      ControlEmission(w, st, i);
      var v' := ViewOf(World(st, w.log + [Emitted(f)]), i);
      EmitView(i, ViewOf(w, i), f, v'.emittedPhase, v'.queued);
    }
    assert ViewOk(f.id, ViewOf(w, f.id));
    ControlEmission(w, st, f.id);
  }

  /** The head of the ready queue always has a frame to send: nothing is skipped. */
  lemma ReadyHead(w: World)
    requires Inv(w) && w.mux.failed.None? && w.mux.ready != []
    ensures var id := w.mux.ready[0];
            && id in w.mux.sessions
            && (w.mux.sessions[id].outbound != [] || w.mux.sessions[id].OwesFin())
            && id !in w.mux.ready[1..]
  {
    var id := w.mux.ready[0];
    assert ViewOk(id, ViewOf(w, id));
  }

  lemma DataView(id: u64, v: View)
    requires ViewOk(id, v) && !v.failed && v.session.Some? && v.session.value.outbound != []
    ensures var s := v.session.value;
            var f := Data(id, s.outbound[0]);
            var more := s.outbound[1..] != [] || s.OwesFin();
            && Sendable(f)
            && s.scheduled
            && |s.outbound[0]| <= s.outboundBytes
            && var s' := s.(outbound := s.outbound[1..], outboundBytes := s.outboundBytes - |s.outbound[0]|, scheduled := more);
               ViewOk(id, v.(session := Some(s'), isReady := more, emittedPhase := Advance(v.phase, f, id),
                             phase := Advance(v.phase, f, id), ledger := Note(v.ledger, id, Emitted(f))))
  {
    var s, l := v.session.value, v.ledger;
    assert Flatten(s.outbound) == s.outbound[0] + Flatten(s.outbound[1..]);
    assert l.sent + s.outbound[0] + Flatten(s.outbound[1..]) == l.written;
  }

  lemma NextDataKeeps(w: World)
    requires Inv(w) && w.mux.failed.None? && w.mux.control == [] && w.mux.ready != []
    requires w.mux.ready[0] in w.mux.sessions && w.mux.sessions[w.mux.ready[0]].outbound != []
    ensures var (st, r) := NextReady(w.mux); r.Emit? && Inv(World(st, w.log + [Emitted(r.frame)]))
  {
    hide SessionOk, Scan, Queued, LedgerOf, Frames, Sum, Flatten;
    ReadyHead(w);
    var id := w.mux.ready[0];
    var st, f, v := NextReady(w.mux).0, Data(id, w.mux.sessions[id].outbound[0]), ViewOf(w, id);
    assert ViewOk(id, v);
    DataView(id, v);
    EmissionKeeps(w, st, f, Rebase(v, st, id).(emittedPhase := Advance(v.phase, f, id), phase := Advance(v.phase, f, id),
                                               ledger := Note(v.ledger, id, Emitted(f))));
  }

  lemma FinView(id: u64, v: View)
    requires ViewOk(id, v) && !v.failed && v.session.Some? && v.session.value.outbound == [] && v.session.value.OwesFin()
    requires v.queued == 0
    ensures var s, f := v.session.value, Fin(id);
            && Sendable(f)
            && ViewOk(id, v.(session := Some(s.(finSent := true, scheduled := false)), isReady := false,
                             emittedPhase := Advance(v.phase, f, id), phase := Advance(v.phase, f, id),
                             ledger := Note(v.ledger, id, Emitted(f))))
  {
  }

  lemma NextFinKeeps(w: World)
    requires Inv(w) && w.mux.failed.None? && w.mux.control == [] && w.mux.ready != []
    requires w.mux.ready[0] in w.mux.sessions && w.mux.sessions[w.mux.ready[0]].outbound == []
    ensures var (st, r) := NextReady(w.mux); r.Emit? && Inv(World(st, w.log + [Emitted(r.frame)]))
  {
    hide SessionOk, Scan, LedgerOf, Frames, Sum, Flatten;
    ReadyHead(w);
    var id := w.mux.ready[0];
    var s, f, v := w.mux.sessions[id], Fin(id), ViewOf(w, id);
    var st := w.mux.(sessions := w.mux.sessions[id := s.(finSent := true, scheduled := false)], ready := w.mux.ready[1..]);
    assert ViewOk(id, v);
    FinView(id, v);
    EmissionKeeps(w, st, f, Rebase(v, st, id).(emittedPhase := Advance(v.phase, f, id), phase := Advance(v.phase, f, id),
                                               ledger := Note(v.ledger, id, Emitted(f))));
    PruneOk(World(st, w.log + [Emitted(f)]), id);
  }

  // ----- The reader -----

  lemma OpenView(id: u64, v: View)
    requires ViewOk(id, v) && v.session.None? && IsHostSessionId(id)
    ensures var f := OpenOk(id, RECEIVE_QUEUE_BYTES);
            && Sendable(f)
            && ViewOk(id, v.(session := Some(NEW_SESSION), isAccepted := true, phase := Advance(v.phase, f, id),
                             queued := v.queued + CreditIn(f, id), ledger := Note(v.ledger, id, Opened(id))))
  {
  }

  lemma RefuseView(id: u64, v: View, arrived: MuxFrame)
    requires ViewOk(id, v) && v.session.None? && IsHostSessionId(id) && arrived.Open?
    ensures var f := OpenErr(id, UNSUPPORTED_KIND);
            && Sendable(f)
            && ViewOk(id, v.(phase := Advance(v.phase, f, id), queued := v.queued + CreditIn(f, id),
                             ledger := Note(v.ledger, id, Arrived(arrived))))
  {
  }

  lemma OpenKeeps(w: World, id: u64)
    requires Inv(w) && IsHostSessionId(id) && id !in w.mux.sessions && |w.mux.control| < MAX_CONTROL_FRAMES
    ensures Inv(World(w.mux.(sessions := w.mux.sessions[id := NEW_SESSION],
                             control := w.mux.control + [OpenOk(id, RECEIVE_QUEUE_BYTES)],
                             accepted := w.mux.accepted + [id]), w.log + [Opened(id)]))
  {
    hide SessionOk, Scan, Queued, LedgerOf, Frames, Sum, Flatten;
    var v, reply := ViewOf(w, id), OpenOk(id, RECEIVE_QUEUE_BYTES);
    var st := w.mux.(sessions := w.mux.sessions[id := NEW_SESSION], control := w.mux.control + [reply],
                     accepted := w.mux.accepted + [id]);
    assert ViewOk(id, v);
    OpenView(id, v);
    assert Local(w.mux, st, id) by {
      assert id !in w.mux.accepted;
    }
    QueueingKeeps(w, st, reply, Opened(id),
                  v.(session := Some(NEW_SESSION), isAccepted := true, phase := Advance(v.phase, reply, id),
                     queued := v.queued + CreditIn(reply, id), ledger := Note(v.ledger, id, Opened(id))));
  }

  lemma RefuseKeeps(w: World, f: MuxFrame)
    requires Inv(w) && f.Open? && IsHostSessionId(f.id) && f.id !in w.mux.sessions && |w.mux.control| < MAX_CONTROL_FRAMES
    ensures Inv(World(w.mux.(control := w.mux.control + [OpenErr(f.id, UNSUPPORTED_KIND)]), w.log + [Arrived(f)]))
  {
    hide SessionOk, Scan, Queued, LedgerOf, Frames, Sum, Flatten;
    var v, reply := ViewOf(w, f.id), OpenErr(f.id, UNSUPPORTED_KIND);
    assert ViewOk(f.id, v);
    RefuseView(f.id, v, f);
    QueueingKeeps(w, w.mux.(control := w.mux.control + [reply]), reply, Arrived(f),
                  v.(phase := Advance(v.phase, reply, f.id), queued := v.queued + CreditIn(reply, f.id),
                     ledger := Note(v.ledger, f.id, Arrived(f))));
  }

  lemma ArrivalView(v: View, f: MuxFrame)
    requires ViewOk(f.id, v) && v.session.Some?
    requires f.Data? ==> |f.bytes| <= ReceiveSpace(v.session.value)
    requires f.Window? ==> v.session.value.sendCredit + f.credit <= USIZE_MAX
    requires f.Data? || f.Window? || f.Rst? || f.Fin?
    ensures ViewOk(f.id, v.(session := Some(Absorb(v.session.value, f)), ledger := Note(v.ledger, f.id, Arrived(f))))
  {
    var s, l := v.session.value, v.ledger;
    if f.Data? {
      assert l.taken + (s.inbound + f.bytes) == l.received + f.bytes;
    }
  }

  lemma ArrivalKeeps(w: World, f: MuxFrame)
    requires Inv(w) && !f.Open? && Incoming(w.mux, f).1.None?
    ensures Inv(World(Incoming(w.mux, f).0, w.log + [Arrived(f)]))
  {
    hide SessionOk, Scan, Queued, LedgerOf, Frames, Sum, Flatten;
    var v, s := ViewOf(w, f.id), Absorb(w.mux.sessions[f.id], f);
    var st := w.mux.(sessions := w.mux.sessions[f.id := s]);
    assert ViewOk(f.id, v);
    ArrivalView(v, f);
    QuietKeeps(w, st, Arrived(f), v.(session := Some(s), ledger := Note(v.ledger, f.id, Arrived(f))));
    PruneOk(World(st, w.log + [Arrived(f)]), f.id);
  }

  lemma FailKeeps(w: World, reason: Reason)
    requires Inv(w)
    ensures Inv(Step(w, DoFail(reason)))
  {
    var w' := Step(w, DoFail(reason));
    forall i: u64
      ensures ViewOk(i, ViewOf(w', i))
    {
      assert ViewOk(i, ViewOf(w, i));
    }
  }

  lemma HandleStepKeeps(w: World, a: Action)
    requires Inv(w) && (a.DoAccept? || a.DoDrop? || a.DoRead? || a.DoCredit? || a.DoWrite?)
    ensures Inv(Step(w, a))
  {
    hide ViewOk, QueuesOk, LedgerOf, Frames, Scan, Queued, Sendable;
    match a
    case DoAccept =>
      if w.mux.failed.None? && w.mux.accepted != [] {
        AcceptKeeps(w);
      }
    case DoDrop(id) =>
      if w.Ledger(id).live && w.Ledger(id).inFlight == [] {
        DropKeeps(w, id);
      }
    case DoRead(id, n) =>
      if w.Ledger(id).live {
        LiveReadKeepsSession(w, id, n);
        if ReadPop(w.mux, id, n).1.ReadBytes? {
          ReadKeeps(w, id, n);
        }
      }
    case DoCredit(id, k) =>
      if w.Ledger(id).live && k < |w.Ledger(id).inFlight| {
        CreditKeeps(w, id, k);
      }
    case DoWrite(id, buf) =>
      if w.Ledger(id).live && Write(w.mux, id, buf).1.Wrote? {
        WriteKeeps(w, id, buf);
      }
    case _ =>
  }

  lemma ThreadStepKeeps(w: World, a: Action)
    requires Inv(w) && (a.DoNext? || a.DoIncoming? || a.DoFail?)
    ensures Inv(Step(w, a))
  {
    hide ViewOk, QueuesOk, LedgerOf, Frames, Scan, Queued;
    match a
    case DoNext =>
      if w.mux.failed.None? {
        if w.mux.control != [] {
          NextControlKeeps(w);
        } else if w.mux.ready != [] {
          ReadyHead(w);
          if w.mux.sessions[w.mux.ready[0]].outbound != [] {
            NextDataKeeps(w);
          } else {
            NextFinKeeps(w);
          }
        }
      }
    case DoIncoming(f) =>
      if Incoming(w.mux, f).1.None? {
        if !f.Open? {
          ArrivalKeeps(w, f);
        } else if MetadataSupported(f.metadata) {
          OpenKeeps(w, f.id);
        } else {
          RefuseKeeps(w, f);
        }
      }
    case DoFail(reason) => FailKeeps(w, reason);
    case _ =>
  }

  lemma StepKeeps(w: World, a: Action)
    requires Inv(w)
    ensures Inv(Step(w, a))
  {
    if a.DoNext? || a.DoIncoming? || a.DoFail? {
      ThreadStepKeeps(w, a);
    } else {
      HandleStepKeeps(w, a);
    }
  }

  lemma {:induction false} RunKeeps(w: World, actions: seq<Action>)
    requires Inv(w)
    ensures Inv(Run(w, actions))
    decreases |actions|
  {
    if actions != [] {
      StepKeeps(w, actions[0]);
      RunKeeps(Step(w, actions[0]), actions[1..]);
    }
  }

  /** Every state the mux can reach satisfies the invariant. */
  lemma Reachable(actions: seq<Action>)
    ensures Inv(Run(START, actions))
  {
    RunKeeps(START, actions);
  }
}
