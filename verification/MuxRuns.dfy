/**
 Whole runs of the guest mux: any interleaving of handle operations, writer turns, arriving frames and
 failures, with a log of what happened.
 */
module MuxRuns {
  import opened Bytes
  import opened MuxCodec
  import opened Mux

  // ----- What happened -----

  datatype Event =
    | Opened(id: u64)
    | Handed(id: u64)
    | Dropped(id: u64)
    | Popped(id: u64, bytes: seq<byte>)
    | Credited(id: u64, reader: nat)
    | GaveUp(id: u64, reader: nat)
    | Took(id: u64, bytes: seq<byte>)
    | Emitted(frame: MuxFrame)
    | Arrived(frame: MuxFrame)

  /**
   The history of one session id since it was last opened. `granted` is receive credit queued for the
   host and `announced` the part of it already emitted; `inFlight` has one entry for each read that took
   bytes and has not yet returned them as credit; `credit` is what the host has granted.
   */
  datatype Ledger = Ledger(
    live: bool,
    granted: nat,
    announced: nat,
    received: seq<byte>,
    taken: seq<byte>,
    inFlight: seq<nat>,
    credit: nat,
    written: seq<byte>,
    sent: seq<byte>)

  const NO_LEDGER := Ledger(false, 0, 0, [], [], [], 0, [], [])

  function RemoveAt(s: seq<nat>, k: nat): (r: seq<nat>)
    requires k < |s|
  {
    s[..k] + s[k + 1..]
  }

  function Note(l: Ledger, id: u64, e: Event): (r: Ledger)
  {
    match e
    case Opened(i) => if i == id then NO_LEDGER.(granted := RECEIVE_QUEUE_BYTES) else l
    case Handed(i) => if i == id then l.(live := true) else l
    case Dropped(i) => if i == id then l.(live := false) else l
    case Popped(i, bytes) =>
      if i == id then l.(taken := l.taken + bytes, inFlight := l.inFlight + [|bytes|]) else l
    case Credited(i, k) =>
      if i == id && k < |l.inFlight|
      then l.(granted := l.granted + l.inFlight[k], inFlight := RemoveAt(l.inFlight, k))
      else l
    case GaveUp(i, k) => if i == id && k < |l.inFlight| then l.(inFlight := RemoveAt(l.inFlight, k)) else l
    case Took(i, bytes) => if i == id then l.(written := l.written + bytes) else l
    case Emitted(f) =>
      if f.id != id then l
      else if f.Data? then l.(sent := l.sent + f.bytes)
      else if f.OpenOk? || f.Window? then l.(announced := l.announced + f.credit)
      else l
    case Arrived(f) =>
      if f.id != id then l
      else if f.Data? then l.(received := l.received + f.bytes)
      else if f.Window? then l.(credit := l.credit + f.credit)
      else l
  }

  function LedgerOf(log: seq<Event>, id: u64): (r: Ledger)
  {
    if log == [] then NO_LEDGER else Note(LedgerOf(log[..|log| - 1], id), id, log[|log| - 1])
  }

  lemma LedgerSnoc(log: seq<Event>, e: Event, id: u64)
    ensures LedgerOf(log + [e], id) == Note(LedgerOf(log, id), id, e)
  {
    assert (log + [e])[..|log|] == log;
  }

  /** The frames handed to the writer, in order. */
  function Frames(log: seq<Event>): (r: seq<MuxFrame>)
  {
    if log == [] then []
    else
      var e := log[|log| - 1];
      Frames(log[..|log| - 1]) + (if e.Emitted? then [e.frame] else [])
  }

  lemma FramesSnoc(log: seq<Event>, e: Event)
    ensures Frames(log + [e]) == Frames(log) + (if e.Emitted? then [e.frame] else [])
  {
    assert (log + [e])[..|log|] == log;
  }

  // ----- Runs -----

  datatype World = World(mux: State, log: seq<Event>)
  {
    function Ledger(id: u64): (r: Ledger)
    {
      LedgerOf(log, id)
    }

    function Sent(): (r: seq<MuxFrame>)
    {
      Frames(log)
    }
  }

  datatype Action =
    | DoAccept
    | DoDrop(id: u64)
    | DoRead(id: u64, capacity: nat)
    | DoCredit(id: u64, reader: nat)
    | DoWrite(id: u64, buf: seq<byte>)
    | DoNext
    | DoIncoming(frame: MuxFrame)
    | DoFail(reason: Reason)

  /**
   Only a live handle can read, write or be dropped, and a handle outlives the reads made through it.
   An action that its caller could not take leaves the world as it is.
   */
  function Step(w: World, a: Action): (r: World)
  {
    match a
    case DoAccept =>
      var (st, r) := Accept(w.mux);
      World(st, if r.Accepted? then w.log + [Handed(r.id)] else w.log)
    case DoDrop(id) =>
      if w.Ledger(id).live && w.Ledger(id).inFlight == []
      then World(Close(w.mux, id), w.log + [Dropped(id)])
      else w
    case DoRead(id, capacity) =>
      if w.Ledger(id).live then
        var (st, r) := ReadPop(w.mux, id, capacity);
        World(st, if r.ReadBytes? then w.log + [Popped(id, r.bytes)] else w.log)
      else w
    case DoCredit(id, k) =>
      if w.Ledger(id).live && k < |w.Ledger(id).inFlight| then
        var credit := w.Ledger(id).inFlight[k];
        if credit >= U32_LIMIT then w.(log := w.log + [GaveUp(id, k)])
        else
          var (st, r) := ReadCredit(w.mux, id, credit);
          World(st, match r
                    case CreditQueued => w.log + [Credited(id, k)]
                    case CreditFailed(_) => w.log + [GaveUp(id, k)]
                    case CreditBlocked => w.log)
      else w
    case DoWrite(id, buf) =>
      if w.Ledger(id).live then
        var (st, r) := Write(w.mux, id, buf);
        World(st, if r.Wrote? && r.count <= |buf| then w.log + [Took(id, buf[..r.count])] else w.log)
      else w
    case DoNext =>
      var (st, r) := NextFrame(w.mux);
      World(st, if r.Emit? then w.log + [Emitted(r.frame)] else w.log)
    case DoIncoming(f) =>
      var (st, v) := Incoming(w.mux, f);
      World(st, if v.Some? then w.log
                else if f.Open? && MetadataSupported(f.metadata) then w.log + [Opened(f.id)]
                else w.log + [Arrived(f)])
    case DoFail(reason) => w.(mux := Fail(w.mux, reason))
  }

  const START := World(INITIAL, [])

  function Run(w: World, actions: seq<Action>): (r: World)
    decreases |actions|
  {
    if actions == [] then w else Run(Step(w, actions[0]), actions[1..])
  }

  // ----- The order of frames within one session id -----

  datatype Phase = Idle | Serving | Broken

  /** Idle, then OpenErr back to Idle, or OpenOk, any Window and Data, and Fin back to Idle. */
  function Advance(p: Phase, f: MuxFrame, id: u64): (r: Phase)
  {
    if f.id != id then p
    else
      match p
      case Idle => if f.OpenErr? then Idle else if f.OpenOk? then Serving else Broken
      case Serving => if f.Data? || f.Window? then Serving else if f.Fin? then Idle else Broken
      case Broken => Broken
  }

  function Scan(fs: seq<MuxFrame>, id: u64): (r: Phase)
  {
    if fs == [] then Idle else Advance(Scan(fs[..|fs| - 1], id), fs[|fs| - 1], id)
  }

  lemma ScanSnoc(fs: seq<MuxFrame>, f: MuxFrame, id: u64)
    ensures Scan(fs + [f], id) == Advance(Scan(fs, id), f, id)
  {
    assert (fs + [f])[..|fs|] == fs;
  }

  lemma {:induction false} ScanPrefix(a: seq<MuxFrame>, b: seq<MuxFrame>, id: u64)
    requires Scan(a + b, id) != Broken
    ensures Scan(a, id) != Broken
    decreases |b|
  {
    if b == [] {
      assert a + b == a;
    } else {
      var n := |b| - 1;
      assert a + b == (a + b[..n]) + [b[n]];
      ScanSnoc(a + b[..n], b[n], id);
      ScanPrefix(a, b[..n], id);
    }
  }

  /** Credit for one id still waiting in the control queue. */
  function Queued(fs: seq<MuxFrame>, id: u64): (r: nat)
  {
    if fs == [] then 0 else CreditIn(fs[0], id) + Queued(fs[1..], id)
  }

  function CreditIn(f: MuxFrame, id: u64): (r: nat)
  {
    if f.id == id && (f.OpenOk? || f.Window?) then f.credit else 0
  }

  lemma {:induction false} QueuedSnoc(fs: seq<MuxFrame>, f: MuxFrame, id: u64)
    ensures Queued(fs + [f], id) == Queued(fs, id) + CreditIn(f, id)
  {
    if fs == [] {
      assert fs + [f] == [f];
      assert Queued([f], id) == CreditIn(f, id) + Queued([f][1..], id);
    } else {
      assert (fs + [f])[0] == fs[0] && (fs + [f])[1..] == fs[1..] + [f];
      QueuedSnoc(fs[1..], f, id);
    }
  }

  function Sum(s: seq<nat>): (r: nat)
  {
    if s == [] then 0 else s[0] + Sum(s[1..])
  }

  lemma {:induction false} SumConcat(a: seq<nat>, b: seq<nat>)
    ensures Sum(a + b) == Sum(a) + Sum(b)
  {
    if a == [] {
      assert a + b == b;
    } else {
      assert (a + b)[0] == a[0] && (a + b)[1..] == a[1..] + b;
      SumConcat(a[1..], b);
    }
  }

  lemma SumRemove(s: seq<nat>, k: nat)
    requires k < |s|
    ensures Sum(RemoveAt(s, k)) + s[k] == Sum(s)
  {
    hide Sum;
    assert s == s[..k] + ([s[k]] + s[k + 1..]);
    SumConcat(s[..k], [s[k]] + s[k + 1..]);
    SumCons(s[k], s[k + 1..]);
    SumConcat(s[..k], s[k + 1..]);
  }

  lemma SumCons(n: nat, s: seq<nat>)
    ensures Sum([n] + s) == n + Sum(s)
  {
    assert ([n] + s)[1..] == s;
  }
}
