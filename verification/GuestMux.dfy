/** The mux as the guest runs it: one object, updated in place by its threads under one lock. */
module GuestMux {
  import opened Bytes
  import opened MuxCodec
  import opened Mux

  class GuestMux {
    var sessions: map<u64, Session>
    var controlQueue: seq<MuxFrame>
    var readySessions: seq<u64>
    var acceptedSessions: seq<u64>
    var failed: Option<Reason>

    function Value(): (st: State)
      reads this
    {
      State(sessions, controlQueue, readySessions, acceptedSessions, failed)
    }

    constructor ()
      ensures Value() == INITIAL
    {
      sessions, controlQueue, readySessions, acceptedSessions, failed := map[], [], [], [], None;
    }

    method FailWith(reason: Reason)
      modifies this
      ensures Value() == Fail(old(Value()), reason)
    {
      if failed.Some? {
        return;
      }
      var todo, reset := sessions.Keys, map[];
      while todo != {}
        invariant todo <= sessions.Keys
        invariant reset == map id | id in sessions.Keys - todo :: sessions[id].(resetReason := Some(reason))
        decreases todo
      {
        var id :| id in todo;
        reset := reset[id := sessions[id].(resetReason := Some(reason))];
        todo := todo - {id};
      }
      sessions := reset;
      controlQueue, readySessions, acceptedSessions := [], [], [];
      failed := Some(reason);
    }

    method Retain(q: seq<u64>, id: u64) returns (r: seq<u64>)
      ensures r == Without(q, id)
    {
      r := [];
      for i := 0 to |q|
        invariant r == Without(q[..i], id)
      {
        WithoutSnoc(q[..i], q[i], id);
        assert q[..i] + [q[i]] == q[..i + 1];
        if q[i] != id {
          r := r + [q[i]];
        }
      }
      assert q[..|q|] == q;
    }

    method PruneDrained(id: u64)
      modifies this
      ensures Value() == Prune(old(Value()), id)
    {
      if id in sessions && sessions[id].IsDrained() {
        sessions := sessions - {id};
        readySessions := Retain(readySessions, id);
        acceptedSessions := Retain(acceptedSessions, id);
      }
    }

    method AcceptSession() returns (r: AcceptOutcome)
      modifies this
      ensures (Value(), r) == Accept(old(Value()))
    {
      if failed.Some? {
        return NoMoreSessions;
      }
      if acceptedSessions != [] {
        var id := acceptedSessions[0];
        acceptedSessions := acceptedSessions[1..];
        if id in sessions {
          return Accepted(id);
        }
      }
      return AcceptBlocked;
    }

    method CloseSession(id: u64)
      modifies this
      ensures Value() == Close(old(Value()), id)
    {
      if failed.Some? || id !in sessions {
        return;
      }
      var session := sessions[id];
      if session.localFin {
        return;
      }
      session := session.(localFin := true);
      if !session.scheduled {
        session := session.(scheduled := true);
        readySessions := readySessions + [id];
      }
      sessions := sessions[id := session];
    }

    /** The lock-held part of `read` up to the wait for control-queue room. */
    method Read(id: u64, capacity: nat) returns (r: ReadOutcome)
      modifies this
      ensures (Value(), r) == ReadPop(old(Value()), id, capacity)
    {
      if capacity == 0 {
        return ReadNothing;
      }
      if failed.Some? {
        return ReadFailed(failed.value);
      }
      if id !in sessions {
        return ReadMissing;
      }
      var session := sessions[id];
      if session.resetReason.Some? {
        return ReadReset(session.resetReason.value);
      }
      var buf: seq<byte> := [];
      var inbound := session.inbound;
      while |buf| < capacity && inbound != []
        invariant |buf| <= capacity && buf + inbound == session.inbound
        decreases |inbound|
      {
        buf, inbound := buf + [inbound[0]], inbound[1..];
      }
      assert |buf| == Least(capacity, |session.inbound|);
      assert buf == session.inbound[..|buf|] && inbound == session.inbound[|buf|..];
      if buf == [] {
        if session.remoteFin {
          PruneDrained(id);
          return ReadEof;
        }
        return ReadBlocked;
      }
      sessions := sessions[id := session.(inbound := inbound)];
      return ReadBytes(buf);
    }

    /** The rest of `read`: return what was taken as window credit. */
    method GrantCredit(id: u64, credit: u32) returns (r: CreditOutcome)
      modifies this
      ensures (Value(), r) == ReadCredit(old(Value()), id, credit)
    {
      if |controlQueue| >= MAX_CONTROL_FRAMES {
        if failed.Some? {
          return CreditFailed(failed.value);
        }
        return CreditBlocked;
      }
      controlQueue := controlQueue + [Window(id, credit)];
      return CreditQueued;
    }

    method WriteBytes(id: u64, buf: seq<byte>) returns (r: WriteOutcome)
      modifies this
      ensures (Value(), r) == Write(old(Value()), id, buf)
    {
      if buf == [] {
        return WroteNothing;
      }
      if failed.Some? {
        return WriteFailed(failed.value);
      }
      if id !in sessions {
        return WriteMissing;
      }
      var session := sessions[id];
      if session.resetReason.Some? {
        return WriteReset(session.resetReason.value);
      }
      if session.localFin {
        return WriteLocalClosed;
      }
      if session.remoteFin {
        return WriteRemoteClosed;
      }
      var n := Writable(session, |buf|);
      if n == 0 {
        return WriteBlocked;
      }
      session := session.(outbound := session.outbound + [buf[..n]],
                          outboundBytes := session.outboundBytes + n,
                          sendCredit := session.sendCredit - n);
      assert sessions[id := session][id := session.(scheduled := true)] == sessions[id := session.(scheduled := true)];
      if !session.scheduled {
        session := session.(scheduled := true);
        readySessions := readySessions + [id];
      }
      sessions := sessions[id := session];
      return Wrote(n);
    }

    method FlushBytes(id: u64) returns (r: FlushOutcome)
      ensures r == Flush(Value(), id)
    {
      if failed.Some? {
        return FlushFailed(failed.value);
      }
      if id !in sessions {
        return FlushMissing;
      }
      if sessions[id].resetReason.Some? {
        return FlushReset(sessions[id].resetReason.value);
      }
      if sessions[id].outboundBytes == 0 {
        return Flushed;
      }
      return FlushBlocked;
    }

    method IsRemoteClosed(id: u64) returns (closed: bool)
      ensures closed <==> RemoteClosed(Value(), id)
    {
      if failed.Some? {
        return true;
      }
      if id !in sessions {
        return true;
      }
      return sessions[id].remoteFin || sessions[id].resetReason.Some?;
    }

    method NextOutgoing() returns (r: NextOutcome)
      modifies this
      ensures (Value(), r) == NextFrame(old(Value()))
    {
      if failed.Some? {
        return WriterEnds;
      }
      if controlQueue != [] {
        var frame := controlQueue[0];
        controlQueue := controlQueue[1..];
        return Emit(frame);
      }
      while readySessions != []
        invariant controlQueue == old(controlQueue) && failed == old(failed)
        invariant NextReady(Value()) == NextReady(old(Value()))
        decreases |readySessions|
      {
        var id := readySessions[0];
        readySessions := readySessions[1..];
        if id !in sessions {
          continue;
        }
        var session := sessions[id];
        if session.outbound != [] {
          var bytes := session.outbound[0];
          session := session.(outbound := session.outbound[1..],
                              outboundBytes := if |bytes| <= session.outboundBytes
                                               then session.outboundBytes - |bytes| else 0);
          if session.outbound == [] && !session.OwesFin() {
            session := session.(scheduled := false);
          } else {
            readySessions := readySessions + [id];
          }
          sessions := sessions[id := session];
          return Emit(Data(id, bytes));
        }
        if session.OwesFin() {
          session := session.(finSent := true, scheduled := false);
          sessions := sessions[id := session];
          if session.IsDrained() {
            PruneDrained(id);
          }
          return Emit(Fin(id));
        }
        sessions := sessions[id := session.(scheduled := false)];
      }
      return WriterBlocked;
    }

    method HandleIncoming(f: MuxFrame) returns (r: Option<Violation>)
      modifies this
      ensures (Value(), r) == Incoming(old(Value()), f)
    {
      if f.OpenOk? || f.OpenErr? {
        return Some(UnexpectedOpenResponse);
      }
      if !IsHostSessionId(f.id) {
        return Some(InvalidSessionId);
      }
      if f.Open? {
        if f.id in sessions {
          return Some(DuplicateOpen);
        }
        if |controlQueue| >= MAX_CONTROL_FRAMES {
          return Some(ControlQueueFull);
        }
        if !MetadataSupported(f.metadata) {
          controlQueue := controlQueue + [OpenErr(f.id, UNSUPPORTED_KIND)];
          return None;
        }
        sessions := sessions[f.id := NEW_SESSION];
        controlQueue := controlQueue + [OpenOk(f.id, RECEIVE_QUEUE_BYTES)];
        acceptedSessions := acceptedSessions + [f.id];
        return None;
      }
      if f.id !in sessions {
        return Some(UnknownSession);
      }
      var session := sessions[f.id];
      match f {
        case Data(id, bytes) =>
          if |bytes| > ReceiveSpace(session) {
            return Some(ReceiveCreditExceeded);
          }
          sessions := sessions[id := session.(inbound := session.inbound + bytes)];
        case Window(id, credit) =>
          if session.sendCredit + credit > USIZE_MAX {
            return Some(SendCreditOverflow);
          }
          sessions := sessions[id := session.(sendCredit := session.sendCredit + credit)];
        case Fin(id) =>
          sessions := sessions[id := session.(remoteFin := true)];
          PruneDrained(id);
        case Rst(id, reason) =>
          sessions := sessions[id := session.(resetReason := Some(reason))];
      }
      return None;
    }
  }
}
