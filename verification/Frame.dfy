/** The `[u32 BE length][u8 type][payload]` frame codec and the terminal loop that drains it. */
module Frame {
  import opened Bytes

  const MAX_FRAME_LEN := 0x10_0000
  const MAX_FRAME_PAYLOAD := MAX_FRAME_LEN - 1

  const STDIN: byte := 0x01
  const RESIZE: byte := 0x04

  datatype Message = Message(kind: byte, payload: seq<byte>)

  /** The length field is computed in 32 bits, so an oversized payload wraps instead of failing. */
  function Wrap32(n: nat): (r: u32)
  {
    if n < U32_LIMIT then n else n % U32_LIMIT
  }

  function WriteFrame(m: Message): (r: seq<byte>)
    ensures |r| == 5 + |m.payload|
  {
    Be32(Wrap32(1 + |m.payload|)) + [m.kind] + m.payload
  }

  datatype ReadError = LengthOutOfRange | UnexpectedEof
  datatype ReadResult = Eof | Failed(error: ReadError) | Got(message: Message, rest: seq<byte>)

  /** A stream that ends inside the length field reads as a clean end. */
  function ReadFrame(stream: seq<byte>): (r: ReadResult)
  {
    if |stream| < 4 then Eof
    else
      var len := FromBe32(stream[..4]);
      if len == 0 || len > MAX_FRAME_LEN then Failed(LengthOutOfRange)
      else if |stream| < 4 + len then Failed(UnexpectedEof)
      else Got(Message(stream[4], stream[5..4 + len]), stream[4 + len..])
  }

  /** Type byte, payload start and total length of the frame at the front, if it is complete. */
  function TryParse(buf: seq<byte>): (r: Option<(byte, nat, nat)>)
    ensures r.Some? ==> r.value.1 == 5 <= r.value.2 <= |buf|
  {
    if |buf| < 5 then None
    else
      var len := FromBe32(buf[..4]);
      if len == 0 || len > MAX_FRAME_LEN || |buf| < 4 + len then None
      else Some((buf[4], 5, 4 + len))
  }

  /** A frame is at most 1 MiB of type and payload. */
  ghost predicate Fits(m: Message)
  {
    1 + |m.payload| <= 0x10_0000
  }

  lemma WriteThenRead(m: Message, rest: seq<byte>)
    requires Fits(m)
    ensures ReadFrame(WriteFrame(m) + rest) == Got(m, rest)
  {
    var s := WriteFrame(m) + rest;
    var len := 1 + |m.payload|;
    assert s[..4] == Be32(len);
    Be32RoundTrip(len);
    assert s[5..4 + len] == m.payload && s[4 + len..] == rest;
  }

  /** An oversized payload writes a length that wraps, and no such frame is read back. */
  lemma ReadBackIffItFits(m: Message, rest: seq<byte>)
    ensures FromBe32(WriteFrame(m)[..4]) == (1 + |m.payload|) % 0x1_0000_0000
    ensures ReadFrame(WriteFrame(m) + rest) == Got(m, rest) <==> Fits(m)
  {
    hide Be32, FromBe32;
    var s, len := WriteFrame(m) + rest, Wrap32(1 + |m.payload|);
    Be32RoundTrip(len);
    assert s[..4] == WriteFrame(m)[..4] == Be32(len);
    if Fits(m) {
      WriteThenRead(m, rest);
    }
  }

  /** Reading accepts only bytes that writing produces: nothing has two encodings. */
  lemma ReadThenWrite(stream: seq<byte>)
    requires ReadFrame(stream).Got?
    ensures var r := ReadFrame(stream); Fits(r.message) && stream == WriteFrame(r.message) + r.rest
  {
    hide Be32, FromBe32;
    var head, r := stream[..4], ReadFrame(stream);
    FromBe32RoundTrip(head);
    assert WriteFrame(r.message) == head + [r.message.kind] + r.message.payload;
    assert stream == head + [r.message.kind] + r.message.payload + r.rest;
  }

  /** A stream of at least a length field that is cut short inside some frame. */
  ghost predicate CutShort(stream: seq<byte>)
  {
    |stream| >= 4 && exists m :: Fits(m) && stream < WriteFrame(m)
  }

  ghost predicate StartsWithFrame(stream: seq<byte>)
  {
    exists m :: Fits(m) && WriteFrame(m) <= stream
  }

  lemma WrittenLength(m: Message)
    requires Fits(m)
    ensures WriteFrame(m)[..4] == Be32(1 + |m.payload|) && FromBe32(WriteFrame(m)[..4]) == 1 + |m.payload|
  {
    Be32RoundTrip(1 + |m.payload|);
  }

  /** A reader that stops says why: the end of the stream, a frame cut short, or something that starts no frame at all. */
  lemma ReadFrameSaysWhy(stream: seq<byte>)
    ensures ReadFrame(stream).Eof? <==> |stream| < 4
    ensures ReadFrame(stream).Got? <==> StartsWithFrame(stream)
    ensures ReadFrame(stream) == Failed(UnexpectedEof) <==> CutShort(stream)
    ensures ReadFrame(stream) == Failed(LengthOutOfRange) <==> |stream| >= 4 && !StartsWithFrame(stream) && !CutShort(stream)
  {
    hide Be32, FromBe32, WriteFrame;
    if StartsWithFrame(stream) {
      var m :| Fits(m) && WriteFrame(m) <= stream;
      WriteThenRead(m, stream[|WriteFrame(m)|..]);
      assert WriteFrame(m) + stream[|WriteFrame(m)|..] == stream;
    }
    if ReadFrame(stream).Got? {
      ReadThenWrite(stream);
      assert WriteFrame(ReadFrame(stream).message) <= stream;
    }
    if CutShort(stream) {
      var m :| Fits(m) && stream < WriteFrame(m);
      WrittenLength(m);
      assert stream[..4] == WriteFrame(m)[..4];
    }
    if ReadFrame(stream) == Failed(UnexpectedEof) {
      CutFrame(stream);
    }
  }

  lemma CutFrame(stream: seq<byte>)
    requires ReadFrame(stream) == Failed(UnexpectedEof)
    ensures CutShort(stream)
  {
    hide Be32, FromBe32;
    var len := FromBe32(stream[..4]);
    var body := stream[4..] + seq(len - (|stream| - 4), _ => 0 as byte);
    var m := Message(body[0], body[1..]);
    FromBe32RoundTrip(stream[..4]);
    assert WriteFrame(m) == stream[..4] + body;
    assert stream == stream[..4] + stream[4..];
    assert Fits(m) && stream < WriteFrame(m);
  }

  /** The peeking parser and the blocking reader agree on every byte string. */
  lemma TryParseAgreesWithReadFrame(buf: seq<byte>)
    ensures TryParse(buf).Some? <==> ReadFrame(buf).Got?
    ensures TryParse(buf).Some? ==>
              var (kind, start, total) := TryParse(buf).value;
              ReadFrame(buf) == Got(Message(kind, buf[start..total]), buf[total..])
  {
  }

  // ----- Whole streams -----

  datatype Stop = CleanEnd | BrokenEnd(error: ReadError)

  /** Everything a reader gets before the stream ends or breaks. */
  function ReadAll(stream: seq<byte>): (r: (seq<Message>, Stop))
    decreases |stream|
  {
    match ReadFrame(stream)
    case Eof => ([], CleanEnd)
    case Failed(e) => ([], BrokenEnd(e))
    case Got(m, rest) => var (ms, stop) := ReadAll(rest); ([m] + ms, stop)
  }

  function WriteAll(ms: seq<Message>): (r: seq<byte>)
  {
    if ms == [] then [] else WriteFrame(ms[0]) + WriteAll(ms[1..])
  }

  lemma {:induction false} StreamRoundTrip(ms: seq<Message>)
    requires forall m :: m in ms ==> Fits(m)
    ensures ReadAll(WriteAll(ms)) == (ms, CleanEnd)
  {
    if ms != [] {
      StreamRoundTrip(ms[1..]);
      WriteThenRead(ms[0], WriteAll(ms[1..]));
      assert ms == [ms[0]] + ms[1..];
    }
  }

  // ----- Incremental draining -----

  /** The frames the loop takes off the front of a buffer, and what it leaves there. */
  function Drain(buf: seq<byte>): (r: (seq<Message>, seq<byte>))
    decreases |buf|
  {
    match TryParse(buf)
    case None => ([], buf)
    case Some((kind, start, total)) =>
      var (ms, left) := Drain(buf[total..]);
      ([Message(kind, buf[start..total])] + ms, left)
  }

  /** Draining after every chunk, carrying the leftover. */
  function DrainChunks(buf: seq<byte>, chunks: seq<seq<byte>>): (r: (seq<Message>, seq<byte>))
    decreases |chunks|
  {
    if chunks == [] then ([], buf)
    else
      var (first, left) := Drain(buf + chunks[0]);
      var (later, end) := DrainChunks(left, chunks[1..]);
      (first + later, end)
  }

  lemma {:induction false} DrainSplits(a: seq<byte>, b: seq<byte>)
    ensures var (first, left) := Drain(a);
            var (later, end) := Drain(left + b);
            Drain(a + b) == (first + later, end)
    decreases |a|
  {
    match TryParse(a)
    case None =>
      assert Drain(a) == ([], a);
      assert [] + Drain(a + b).0 == Drain(a + b).0;
    case Some((kind, start, total)) =>
      assert (a + b)[..4] == a[..4];
      assert (a + b)[start..total] == a[start..total];
      assert (a + b)[total..] == a[total..] + b;
      DrainSplits(a[total..], b);
      var m := [Message(kind, a[start..total])];
      var (first, left) := Drain(a[total..]);
      var (later, end) := Drain(left + b);
      assert m + (first + later) == (m + first) + later;
  }

  lemma DrainIsIdle(buf: seq<byte>)
    ensures TryParse(Drain(buf).1).None?
    ensures Drain(Drain(buf).1) == ([], Drain(buf).1)
    decreases |buf|
  {
  }

  /** However a stream is cut, the loop dispatches the same frames and keeps the same leftover. */
  lemma {:induction false} DrainIgnoresChunking(buf: seq<byte>, chunks: seq<seq<byte>>)
    requires TryParse(buf).None?
    ensures DrainChunks(buf, chunks) == Drain(buf + Flatten(chunks))
    decreases |chunks|
  {
    hide TryParse;
    if chunks == [] {
      assert buf + Flatten(chunks) == buf;
    } else {
      var head, tail := buf + chunks[0], Flatten(chunks[1..]);
      var left := Drain(head).1;
      DrainIsIdle(head);
      DrainIgnoresChunking(left, chunks[1..]);
      DrainSplits(head, tail);
      assert buf + Flatten(chunks) == head + tail;
      calc {
        DrainChunks(buf, chunks);
        (Drain(head).0 + DrainChunks(left, chunks[1..]).0, DrainChunks(left, chunks[1..]).1);
        (Drain(head).0 + Drain(left + tail).0, Drain(left + tail).1);
        Drain(head + tail);
      }
    }
  }

  /** The drained frames are those a blocking reader gets, and the leftover is its unread tail. */
  lemma {:induction false} DrainMatchesReadAll(buf: seq<byte>)
    ensures Drain(buf).0 == ReadAll(buf).0
    ensures buf == WriteAll(Drain(buf).0) + Drain(buf).1
    decreases |buf|
  {
    TryParseAgreesWithReadFrame(buf);
    match TryParse(buf)
    case None =>
    case Some((kind, start, total)) =>
      DrainMatchesReadAll(buf[total..]);
      ReadThenWrite(buf);
      var (ms, left) := Drain(buf[total..]);
      var m := Message(kind, buf[start..total]);
      assert ([m] + ms)[1..] == ms;
      assert WriteFrame(m) + (WriteAll(ms) + left) == WriteFrame(m) + WriteAll(ms) + left;
  }

  // ----- The terminal loop -----

  datatype Effect = TypeBytes(bytes: seq<byte>) | SetWindow(rows: u16, cols: u16)

  function ParseResize(payload: seq<byte>): (r: Option<(u16, u16)>)
  {
    if |payload| < 4 then None else Some((FromBe16(payload[..2]), FromBe16(payload[2..4])))
  }

  function ResizePayload(rows: u16, cols: u16): (r: seq<byte>)
  {
    Be16(rows) + Be16(cols)
  }

  lemma ResizeRoundTrip(rows: u16, cols: u16, rest: seq<byte>)
    ensures ParseResize(ResizePayload(rows, cols) + rest) == Some((rows, cols))
  {
    var p := ResizePayload(rows, cols) + rest;
    assert p[..2] == Be16(rows) && p[2..4] == Be16(cols);
  }

  function Dispatch(m: Message): (r: seq<Effect>)
  {
    if m.kind == STDIN then [TypeBytes(m.payload)]
    else if m.kind == RESIZE then
      match ParseResize(m.payload)
      case Some((rows, cols)) => [SetWindow(rows, cols)]
      case None => []
    else []
  }

  function DispatchAll(ms: seq<Message>): (r: seq<Effect>)
  {
    if ms == [] then [] else Dispatch(ms[0]) + DispatchAll(ms[1..])
  }

  lemma {:induction false} DispatchAllConcat(a: seq<Message>, b: seq<Message>)
    ensures DispatchAll(a + b) == DispatchAll(a) + DispatchAll(b)
  {
    if a == [] {
      assert a + b == b;
    } else {
      assert (a + b)[0] == a[0] && (a + b)[1..] == a[1..] + b;
      DispatchAllConcat(a[1..], b);
    }
  }

  lemma DrainStep(buf: seq<byte>)
    requires TryParse(buf).Some?
    ensures var (kind, start, total) := TryParse(buf).value;
            var m := Message(kind, buf[start..total]);
            && Drain(buf).1 == Drain(buf[total..]).1
            && DispatchAll(Drain(buf).0) == Dispatch(m) + DispatchAll(Drain(buf[total..]).0)
  {
    var (kind, start, total) := TryParse(buf).value;
    var m := Message(kind, buf[start..total]);
    assert Drain(buf).0 == [m] + Drain(buf[total..]).0;
    assert Drain(buf).0[1..] == Drain(buf[total..]).0;
  }

  lemma DrainEnd(buf: seq<byte>)
    requires TryParse(buf).None?
    ensures Drain(buf).1 == buf && DispatchAll(Drain(buf).0) == []
  {
  }

  /** What one read of the control socket adds to the effects, and the buffer it leaves. */
  function FeedSpec(buffer: seq<byte>, chunk: seq<byte>): (r: (seq<Effect>, seq<byte>))
  {
    var (ms, left) := Drain(buffer + chunk);
    (DispatchAll(ms), left)
  }

  function FeedAll(buffer: seq<byte>, chunks: seq<seq<byte>>): (r: (seq<Effect>, seq<byte>))
    decreases |chunks|
  {
    if chunks == [] then ([], buffer)
    else
      var (now, left) := FeedSpec(buffer, chunks[0]);
      var (later, end) := FeedAll(left, chunks[1..]);
      (now + later, end)
  }

  /** The whole life of the loop: what it does depends on the bytes received, not on how they arrive. */
  lemma {:induction false} TerminalIgnoresChunking(buffer: seq<byte>, chunks: seq<seq<byte>>)
    requires TryParse(buffer).None?
    ensures FeedAll(buffer, chunks) == FeedSpec(buffer, Flatten(chunks))
  {
    DrainIgnoresChunking(buffer, chunks);
    FeedAllDispatches(buffer, chunks);
  }

  lemma {:induction false} FeedAllDispatches(buffer: seq<byte>, chunks: seq<seq<byte>>)
    ensures var (ms, left) := DrainChunks(buffer, chunks);
            FeedAll(buffer, chunks) == (DispatchAll(ms), left)
    decreases |chunks|
  {
    if chunks != [] {
      var (first, left) := Drain(buffer + chunks[0]);
      FeedAllDispatches(left, chunks[1..]);
      DispatchAllConcat(first, DrainChunks(left, chunks[1..]).0);
    }
  }

  /** What a host sends to a terminal: keystrokes, window sizes (what follows the size is ignored), and anything else. */
  datatype Input = Typed(keys: seq<byte>) | Resized(rows: u16, cols: u16, rest: seq<byte>) | Other(message: Message)

  function MessageOf(i: Input): (m: Message)
  {
    match i
    case Typed(keys) => Message(0x01, keys)
    case Resized(rows, cols, rest) => Message(0x04, ResizePayload(rows, cols) + rest)
    case Other(m) => m
  }

  /** Neither keystrokes nor a window size. */
  predicate Ignored(m: Message)
  {
    m.kind != 0x01 && (m.kind == 0x04 ==> |m.payload| < 4)
  }

  ghost predicate Sendable(i: Input)
  {
    Fits(MessageOf(i)) && (i.Other? ==> Ignored(i.message))
  }

  function Messages(inputs: seq<Input>): (ms: seq<Message>)
  {
    if inputs == [] then [] else [MessageOf(inputs[0])] + Messages(inputs[1..])
  }

  function Intended(inputs: seq<Input>): (es: seq<Effect>)
  {
    if inputs == [] then []
    else
      (match inputs[0]
       case Typed(keys) => [TypeBytes(keys)]
       case Resized(rows, cols, _) => [SetWindow(rows, cols)]
       case Other(_) => []) + Intended(inputs[1..])
  }

  /** Every message is one of these inputs. */
  lemma EveryMessageIsAnInput(m: Message) returns (i: Input)
    requires Fits(m)
    ensures Sendable(i) && MessageOf(i) == m
  {
    var p := m.payload;
    if Ignored(m) {
      i := Other(m);
    } else if m.kind == 0x01 {
      i := Typed(p);
    } else {
      i := Resized(FromBe16(p[..2]), FromBe16(p[2..4]), p[4..]);
      assert ResizePayload(i.rows, i.cols) == p[..4] && p == p[..4] + p[4..];
    }
  }

  lemma {:induction false} IntendedIsDispatched(inputs: seq<Input>)
    requires forall i :: i in inputs ==> Sendable(i)
    ensures DispatchAll(Messages(inputs)) == Intended(inputs)
    ensures forall m :: m in Messages(inputs) ==> Fits(m)
  {
    if inputs != [] {
      IntendedIsDispatched(inputs[1..]);
      var i := inputs[0];
      assert Messages(inputs)[1..] == Messages(inputs[1..]);
      if i.Resized? {
        ResizeRoundTrip(i.rows, i.cols, i.rest);
      }
      assert i in inputs && Sendable(i);
    }
  }

  lemma {:induction false} DrainWritten(ms: seq<Message>)
    requires forall m :: m in ms ==> Fits(m)
    ensures Drain(WriteAll(ms)) == (ms, [])
  {
    StreamRoundTrip(ms);
    DrainMatchesReadAll(WriteAll(ms));
    var left := Drain(WriteAll(ms)).1;
    assert |WriteAll(ms) + left| == |WriteAll(ms)| + |left|;
  }

  /** However its frames arrive, a terminal session shows exactly the keystrokes and window sizes sent, in order. */
  lemma TerminalShowsWhatWasSent(inputs: seq<Input>, chunks: seq<seq<byte>>)
    requires forall i :: i in inputs ==> Sendable(i)
    requires Flatten(chunks) == WriteAll(Messages(inputs))
    ensures FeedAll([], chunks) == (Intended(inputs), [])
  {
    hide Messages, Intended, WriteAll, Drain, DispatchAll, FeedAll;
    IntendedIsDispatched(inputs);
    DrainWritten(Messages(inputs));
    TerminalIgnoresChunking([], chunks);
    assert [] + Flatten(chunks) == Flatten(chunks);
  }

  /** The receive side of the terminal loop: a growing buffer drained in place. */
  class TerminalInput {
    var buffer: seq<byte>
    var effects: seq<Effect>

    constructor ()
      ensures buffer == [] && effects == []
    {
      buffer, effects := [], [];
    }

    /** One successful read of the control socket. */
    method Feed(chunk: seq<byte>)
      modifies this
      ensures buffer == FeedSpec(old(buffer), chunk).1
      ensures effects == old(effects) + FeedSpec(old(buffer), chunk).0
    {
      hide Drain, Dispatch, DispatchAll;
      buffer := buffer + chunk;
      ghost var start := buffer;
      var parsed := TryParse(buffer);
      while parsed.Some?
        invariant parsed == TryParse(buffer)
        invariant Drain(buffer).1 == Drain(start).1
        invariant effects + DispatchAll(Drain(buffer).0) == old(effects) + DispatchAll(Drain(start).0)
        decreases |buffer|
      {
        var (kind, from, total) := parsed.value;
        DrainStep(buffer);
        effects := effects + Dispatch(Message(kind, buffer[from..total]));
        buffer := buffer[total..];
        parsed := TryParse(buffer);
      }
      DrainEnd(buffer);
    }
  }

  /** A blocking byte source, consumed from the front. */
  class ByteSource {
    var pending: seq<byte>

    constructor (bytes: seq<byte>)
      ensures pending == bytes
    {
      pending := bytes;
    }

    /** `read_exact`: all of it, or nothing usable and the source exhausted. */
    method ReadExact(n: nat) returns (r: Option<seq<byte>>)
      modifies this
      ensures n <= |old(pending)| ==> r == Some(old(pending)[..n]) && pending == old(pending)[n..]
      ensures n > |old(pending)| ==> r == None && pending == []
    {
      if n <= |pending| {
        r, pending := Some(pending[..n]), pending[n..];
      } else {
        r, pending := None, [];
      }
    }

    method Next() returns (r: ReadResult)
      modifies this
      ensures r == ReadFrame(old(pending))
      ensures r.Got? ==> pending == r.rest
    {
      var head := ReadExact(4);
      if head.None? { return Eof; }
      var len := FromBe32(head.value);
      if len == 0 || len > MAX_FRAME_LEN { return Failed(LengthOutOfRange); }
      var kind := ReadExact(1);
      if kind.None? { return Failed(UnexpectedEof); }
      var payload: Option<seq<byte>> := Some([]);
      if len > 1 {
        payload := ReadExact(len - 1);
        if payload.None? { return Failed(UnexpectedEof); }
      }
      r := Got(Message(kind.value[0], payload.value), pending);
    }
  }
}
