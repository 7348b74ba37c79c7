/**
 The guest side of the session multiplexer: the state behind its lock and, for each critical section,
 the state it leaves. A section that would wait on the condition variable returns a Blocked outcome.
 */
module Mux {
  import opened Bytes
  import opened Utf8
  import opened MuxCodec

  const RECEIVE_QUEUE_BYTES := 256 * 1024
  const SEND_QUEUE_BYTES := 256 * 1024
  const MAX_CONTROL_FRAMES := 128
  const USIZE_MAX := U64_LIMIT - 1

  type Reason = seq<byte>

  datatype Session = Session(
    inbound: seq<byte>,
    outbound: seq<seq<byte>>,
    outboundBytes: nat,
    sendCredit: nat,
    remoteFin: bool,
    localFin: bool,
    finSent: bool,
    resetReason: Option<Reason>,
    scheduled: bool)
  {
    predicate IsDrained()
    {
      localFin && finSent && remoteFin && inbound == [] && outbound == [] && outboundBytes == 0
    }

    predicate OwesFin()
    {
      localFin && !finSent
    }
  }

  const NEW_SESSION := Session([], [], 0, 0, false, false, false, None, false)

  datatype State = State(
    sessions: map<u64, Session>,
    control: seq<MuxFrame>,
    ready: seq<u64>,
    accepted: seq<u64>,
    failed: Option<Reason>)

  const INITIAL := State(map[], [], [], [], None)

  /** `VecDeque::retain(|queued| *queued != id)`. */
  function Without(q: seq<u64>, id: u64): (r: seq<u64>)
    ensures forall x :: x in r <==> x in q && x != id
    ensures id !in q ==> r == q
  {
    if q == [] then [] else (if q[0] == id then [] else [q[0]]) + Without(q[1..], id)
  }

  lemma {:induction false} WithoutSnoc(q: seq<u64>, x: u64, id: u64)
    ensures Without(q + [x], id) == Without(q, id) + (if x == id then [] else [x])
  {
    if q == [] {
      assert q + [x] == [x];
    } else {
      assert (q + [x])[0] == q[0] && (q + [x])[1..] == q[1..] + [x];
      WithoutSnoc(q[1..], x, id);
    }
  }

  function Fail(st: State, reason: Reason): (r: State)
  {
    if st.failed.Some? then st
    else State(map id | id in st.sessions :: st.sessions[id].(resetReason := Some(reason)), [], [], [], Some(reason))
  }

  function Prune(st: State, id: u64): (r: State)
  {
    if id in st.sessions && st.sessions[id].IsDrained() then
      st.(sessions := st.sessions - {id}, ready := Without(st.ready, id), accepted := Without(st.accepted, id))
    else st
  }

  // ----- Session handles -----

  datatype AcceptOutcome = NoMoreSessions | Accepted(id: u64) | AcceptBlocked

  function Accept(st: State): (r: (State, AcceptOutcome))
  {
    if st.failed.Some? then (st, NoMoreSessions)
    else if st.accepted == [] then (st, AcceptBlocked)
    else
      var id, rest := st.accepted[0], st.(accepted := st.accepted[1..]);
      if id in st.sessions then (rest, Accepted(id)) else (rest, AcceptBlocked)
  }

  function Schedule(st: State, id: u64): (r: State)
    requires id in st.sessions
  {
    var s := st.sessions[id];
    if s.scheduled then st
    else st.(sessions := st.sessions[id := s.(scheduled := true)], ready := st.ready + [id])
  }

  function Close(st: State, id: u64): (r: State)
  {
    if st.failed.Some? || id !in st.sessions || st.sessions[id].localFin then st
    else Schedule(st.(sessions := st.sessions[id := st.sessions[id].(localFin := true)]), id)
  }

  datatype ReadOutcome =
    | ReadNothing | ReadFailed(reason: Reason) | ReadMissing | ReadReset(reason: Reason)
    | ReadEof | ReadBytes(bytes: seq<byte>) | ReadBlocked

  /** The first half of `read`: take up to n inbound bytes. */
  function ReadPop(st: State, id: u64, n: nat): (r: (State, ReadOutcome))
  {
    if n == 0 then (st, ReadNothing)
    else if st.failed.Some? then (st, ReadFailed(st.failed.value))
    else if id !in st.sessions then (st, ReadMissing)
    else
      var s := st.sessions[id];
      if s.resetReason.Some? then (st, ReadReset(s.resetReason.value))
      else if s.inbound != [] then
        var k := Least(n, |s.inbound|);
        (st.(sessions := st.sessions[id := s.(inbound := s.inbound[k..])]), ReadBytes(s.inbound[..k]))
      else if s.remoteFin then (Prune(st, id), ReadEof)
      else (st, ReadBlocked)
  }

  datatype CreditOutcome = CreditQueued | CreditFailed(reason: Reason) | CreditBlocked

  /** The second half of `read`: once the control queue has room, hand the bytes back as credit. */
  function ReadCredit(st: State, id: u64, credit: u32): (r: (State, CreditOutcome))
  {
    if |st.control| >= MAX_CONTROL_FRAMES then
      (st, if st.failed.Some? then CreditFailed(st.failed.value) else CreditBlocked)
    else (st.(control := st.control + [Window(id, credit)]), CreditQueued)
  }

  datatype WriteOutcome =
    | WroteNothing | WriteFailed(reason: Reason) | WriteMissing | WriteReset(reason: Reason)
    | WriteLocalClosed | WriteRemoteClosed | Wrote(count: nat) | WriteBlocked

  /** How much of n bytes `write` takes: bounded by the chunk size, the credit and the queue space. */
  function Writable(s: Session, n: nat): (r: nat)
  {
    Least(Least(Least(n, MAX_DATA_LEN), s.sendCredit), if s.outboundBytes <= SEND_QUEUE_BYTES then SEND_QUEUE_BYTES - s.outboundBytes else 0)
  }

  function Write(st: State, id: u64, buf: seq<byte>): (r: (State, WriteOutcome))
  {
    if buf == [] then (st, WroteNothing)
    else if st.failed.Some? then (st, WriteFailed(st.failed.value))
    else if id !in st.sessions then (st, WriteMissing)
    else
      var s := st.sessions[id];
      if s.resetReason.Some? then (st, WriteReset(s.resetReason.value))
      else if s.localFin then (st, WriteLocalClosed)
      else if s.remoteFin then (st, WriteRemoteClosed)
      else
        var n := Writable(s, |buf|);
        if n == 0 then (st, WriteBlocked)
        else
          var s' := s.(outbound := s.outbound + [buf[..n]], outboundBytes := s.outboundBytes + n,
                       sendCredit := s.sendCredit - n);
          (Schedule(st.(sessions := st.sessions[id := s']), id), Wrote(n))
  }

  datatype FlushOutcome = Flushed | FlushFailed(reason: Reason) | FlushMissing | FlushReset(reason: Reason) | FlushBlocked

  function Flush(st: State, id: u64): (r: FlushOutcome)
  {
    if st.failed.Some? then FlushFailed(st.failed.value)
    else if id !in st.sessions then FlushMissing
    else if st.sessions[id].resetReason.Some? then FlushReset(st.sessions[id].resetReason.value)
    else if st.sessions[id].outboundBytes == 0 then Flushed
    else FlushBlocked
  }

  /** Whether the host can no longer be heard: `is_remote_closed`. */
  predicate RemoteClosed(st: State, id: u64)
  {
    st.failed.Some? || id !in st.sessions || st.sessions[id].remoteFin || st.sessions[id].resetReason.Some?
  }

  // ----- The writer thread -----

  datatype NextOutcome = WriterEnds | Emit(frame: MuxFrame) | WriterBlocked

  /** Works down the ready queue until some session has a frame to send. */
  function NextReady(st: State): (r: (State, NextOutcome))
    decreases |st.ready|
  {
    if st.ready == [] then (st, WriterBlocked)
    else
      var id, rest := st.ready[0], st.(ready := st.ready[1..]);
      if id !in st.sessions then NextReady(rest)
      else
        var s := st.sessions[id];
        if s.outbound != [] then
          var bytes := s.outbound[0];
          var s' := s.(outbound := s.outbound[1..],
                       outboundBytes := if |bytes| <= s.outboundBytes then s.outboundBytes - |bytes| else 0);
          if s'.outbound == [] && !s'.OwesFin() then
            (rest.(sessions := st.sessions[id := s'.(scheduled := false)]), Emit(Data(id, bytes)))
          else
            (rest.(sessions := st.sessions[id := s'], ready := rest.ready + [id]), Emit(Data(id, bytes)))
        else if s.OwesFin() then
          (Prune(rest.(sessions := st.sessions[id := s.(finSent := true, scheduled := false)]), id), Emit(Fin(id)))
        else NextReady(rest.(sessions := st.sessions[id := s.(scheduled := false)]))
  }

  function NextFrame(st: State): (r: (State, NextOutcome))
  {
    if st.failed.Some? then (st, WriterEnds)
    else if st.control != [] then (st.(control := st.control[1..]), Emit(st.control[0]))
    else NextReady(st)
  }

  // ----- The reader thread -----

  datatype Violation =
    | InvalidSessionId | DuplicateOpen | ControlQueueFull | UnexpectedOpenResponse
    | UnknownSession | ReceiveCreditExceeded | SendCreditOverflow

  const KIND_EXEC: seq<byte> := [0x65, 0x78, 0x65, 0x63]
  const KIND_WATCH: seq<byte> := [0x77, 0x61, 0x74, 0x63, 0x68]
  const KIND_FILE: seq<byte> := [0x66, 0x69, 0x6C, 0x65]

  /** The session kinds "exec", "watch" and "file". */
  predicate MetadataSupported(metadata: seq<byte>)
  {
    metadata == KIND_EXEC || metadata == KIND_WATCH || metadata == KIND_FILE
  }

  const UNSUPPORTED_KIND: Reason := Ascii("unsupported mux session kind")

  /** A violation leaves the state alone; the caller then fails the whole mux. */
  function Incoming(st: State, f: MuxFrame): (r: (State, Option<Violation>))
  {
    if f.OpenOk? || f.OpenErr? then (st, Some(UnexpectedOpenResponse))
    else if !IsHostSessionId(f.id) then (st, Some(InvalidSessionId))
    else if f.Open? then
      if f.id in st.sessions then (st, Some(DuplicateOpen))
      else if |st.control| >= MAX_CONTROL_FRAMES then (st, Some(ControlQueueFull))
      else if !MetadataSupported(f.metadata) then
        (st.(control := st.control + [OpenErr(f.id, UNSUPPORTED_KIND)]), None)
      else
        (st.(sessions := st.sessions[f.id := NEW_SESSION],
             control := st.control + [OpenOk(f.id, RECEIVE_QUEUE_BYTES)],
             accepted := st.accepted + [f.id]), None)
    else if f.id !in st.sessions then (st, Some(UnknownSession))
    else
      var s := st.sessions[f.id];
      if f.Data? && |f.bytes| > ReceiveSpace(s) then (st, Some(ReceiveCreditExceeded))
      else if f.Window? && s.sendCredit + f.credit > USIZE_MAX then (st, Some(SendCreditOverflow))
      else
        var st' := st.(sessions := st.sessions[f.id := Absorb(s, f)]);
        (if f.Fin? then Prune(st', f.id) else st', None)
  }

  function ReceiveSpace(s: Session): (n: nat)
  {
    if |s.inbound| <= RECEIVE_QUEUE_BYTES then RECEIVE_QUEUE_BYTES - |s.inbound| else 0
  }

  /** What an accepted frame does to its session. */
  function Absorb(s: Session, f: MuxFrame): (r: Session)
    requires f.Data? || f.Window? || f.Fin? || f.Rst?
  {
    match f
    case Data(_, bytes) => s.(inbound := s.inbound + bytes)
    case Window(_, credit) => s.(sendCredit := s.sendCredit + credit)
    case Fin(_) => s.(remoteFin := true)
    case Rst(_, reason) => s.(resetReason := Some(reason))
  }
}
