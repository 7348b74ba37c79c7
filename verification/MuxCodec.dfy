/** UTF-8 well-formedness, as `std::str::from_utf8` decides it. */
module Utf8 {
  import opened Bytes

  predicate Tail(b: byte)
  {
    0x80 <= b <= 0xBF
  }

  predicate IsUtf8(b: seq<byte>)
  {
    if b == [] then true
    else if b[0] < 0x80 then IsUtf8(b[1..])
    else if |b| < 2 then false
    else if 0xC2 <= b[0] <= 0xDF then Tail(b[1]) && IsUtf8(b[2..])
    else if |b| < 3 then false
    else if 0xE0 <= b[0] <= 0xEF then
      && (if b[0] == 0xE0 then 0xA0 <= b[1] <= 0xBF else if b[0] == 0xED then 0x80 <= b[1] <= 0x9F else Tail(b[1]))
      && Tail(b[2])
      && IsUtf8(b[3..])
    else if |b| < 4 then false
    else
      && (if b[0] == 0xF0 then 0x90 <= b[1] <= 0xBF
          else if b[0] == 0xF4 then 0x80 <= b[1] <= 0x8F
          else 0xF1 <= b[0] <= 0xF3 && Tail(b[1]))
      && Tail(b[2])
      && Tail(b[3])
      && IsUtf8(b[4..])
  }

  /** The bytes of an ASCII literal. */
  function Ascii(s: string): (r: seq<byte>)
    requires forall i :: 0 <= i < |s| ==> s[i] < '\U{80}'
    ensures |r| == |s|
    ensures forall i :: 0 <= i < |s| ==> r[i] == s[i] as int < 0x80
  {
    seq(|s|, i requires 0 <= i < |s| => s[i] as int)
  }

  lemma {:induction false} AsciiIsUtf8(b: seq<byte>)
    requires forall i :: 0 <= i < |b| ==> b[i] < 0x80
    ensures IsUtf8(b)
  {
    if b != [] {
      AsciiIsUtf8(b[1..]);
    }
  }

  // ----- What the bytes stand for -----

  /** The bytes encode this Unicode scalar value: six bits in every byte after the first, the shortest form, no surrogates (section 3 of RFC 3629). */
  predicate Encodes(e: seq<byte>, n: nat)
  {
    && (forall i :: 0 < i < |e| ==> Tail(e[i]))
    && (match |e|
        case 1 => n == e[0] < 0x80
        case 2 => 0xC0 <= e[0] < 0xE0 && n == (e[0] as int - 0xC0) * 0x40 + (e[1] as int - 0x80) && n >= 0x80
        case 3 =>
          && 0xE0 <= e[0] < 0xF0
          && n == (e[0] as int - 0xE0) * 0x1000 + (e[1] as int - 0x80) * 0x40 + (e[2] as int - 0x80)
          && n >= 0x800 && !(0xD800 <= n < 0xE000)
        case 4 =>
          && 0xF0 <= e[0] < 0xF8
          && n == (e[0] as int - 0xF0) * 0x4_0000 + (e[1] as int - 0x80) * 0x1000 + (e[2] as int - 0x80) * 0x40 + (e[3] as int - 0x80)
          && 0x1_0000 <= n < 0x11_0000
        case _ => false)
  }

  predicate AllEncode(es: seq<seq<byte>>, ns: seq<nat>)
  {
    |es| == |ns| && forall i :: 0 <= i < |es| ==> Encodes(es[i], ns[i])
  }

  /** One scalar value in front does not change whether the rest is well formed. */
  lemma EncodedThen(e: seq<byte>, n: nat, rest: seq<byte>)
    requires Encodes(e, n)
    ensures IsUtf8(e + rest) <==> IsUtf8(rest)
  {
    assert (e + rest)[|e|..] == rest;
  }

  /** Well-formed bytes begin with the encoding of some scalar value. */
  lemma FirstEncoded(b: seq<byte>) returns (k: nat, n: nat)
    requires b != [] && IsUtf8(b)
    ensures 0 < k <= |b| && Encodes(b[..k], n) && IsUtf8(b[k..])
  {
    if b[0] < 0x80 {
      k, n := 1, b[0];
    } else if b[0] <= 0xDF {
      k, n := 2, (b[0] as int - 0xC0) * 0x40 + (b[1] as int - 0x80);
    } else if b[0] <= 0xEF {
      k, n := 3, (b[0] as int - 0xE0) * 0x1000 + (b[1] as int - 0x80) * 0x40 + (b[2] as int - 0x80);
    } else {
      k := 4;
      n := (b[0] as int - 0xF0) * 0x4_0000 + (b[1] as int - 0x80) * 0x1000 + (b[2] as int - 0x80) * 0x40 + (b[3] as int - 0x80);
    }
  }

  /** Whatever encodes scalar values one after the other is well formed... */
  lemma {:induction false} EncodingIsUtf8(es: seq<seq<byte>>, ns: seq<nat>)
    requires AllEncode(es, ns)
    ensures IsUtf8(Flatten(es))
  {
    hide IsUtf8, Encodes;
    if es == [] {
      NothingIsUtf8();
    } else {
      EncodingIsUtf8(es[1..], ns[1..]);
      EncodedThen(es[0], ns[0], Flatten(es[1..]));
    }
  }

  lemma NothingIsUtf8()
    ensures IsUtf8([])
  {
  }

  /** ... and nothing else is. */
  lemma {:induction false} Utf8IsAnEncoding(b: seq<byte>) returns (es: seq<seq<byte>>, ns: seq<nat>)
    requires IsUtf8(b)
    ensures AllEncode(es, ns) && Flatten(es) == b
    decreases |b|
  {
    hide IsUtf8, Encodes;
    es, ns := [], [];
    if b != [] {
      var k, n := FirstEncoded(b);
      es, ns := Utf8IsAnEncoding(b[k..]);
      assert b == b[..k] + b[k..];
      assert ([b[..k]] + es)[1..] == es;
      es, ns := [b[..k]] + es, [n] + ns;
    }
  }
}

/** The session mux envelopes carried inside frames of type 0x70 to 0x76. */
module MuxCodec {
  import opened Bytes
  import opened Utf8
  import opened Frame

  const MUX_OPEN: byte := 0x70
  const MUX_OPEN_OK: byte := 0x71
  const MUX_OPEN_ERR: byte := 0x72
  const MUX_DATA: byte := 0x73
  const MUX_WINDOW: byte := 0x74
  const MUX_FIN: byte := 0x75
  const MUX_RST: byte := 0x76

  const SESSION_ID_LEN := 8
  const WINDOW_PAYLOAD_LEN := 12
  const MAX_DATA_LEN := 64 * 1024
  const MAX_OPEN_METADATA_LEN := 4 * 1024
  const MAX_REASON_LEN := 4 * 1024

  /** Reasons are Rust strings: their bytes are UTF-8 (see Wellformed). */
  datatype MuxFrame =
    | Open(id: u64, metadata: seq<byte>)
    | OpenOk(id: u64, credit: u32)
    | OpenErr(id: u64, reason: seq<byte>)
    | Data(id: u64, bytes: seq<byte>)
    | Window(id: u64, credit: u32)
    | Fin(id: u64)
    | Rst(id: u64, reason: seq<byte>)

  datatype MuxError =
    | UnknownType | PayloadTooShort | InvalidPayloadLen | ReservedSessionId | EmptyData
    | DataTooLarge | MetadataTooLarge | ReasonTooLarge | ZeroWindowCredit | ReasonNotUtf8

  datatype Result<+T> = Ok(value: T) | Err(error: MuxError)

  predicate IsHostSessionId(id: u64)
  {
    id != 0 && id % 2 == 1
  }

  predicate Wellformed(f: MuxFrame)
  {
    (f.OpenErr? || f.Rst?) ==> IsUtf8(f.reason)
  }

  function Kind(f: MuxFrame): (k: byte)
  {
    match f
    case Open(_, _) => MUX_OPEN
    case OpenOk(_, _) => MUX_OPEN_OK
    case OpenErr(_, _) => MUX_OPEN_ERR
    case Data(_, _) => MUX_DATA
    case Window(_, _) => MUX_WINDOW
    case Fin(_) => MUX_FIN
    case Rst(_, _) => MUX_RST
  }

  /** What follows the session id, or why it cannot be sent. */
  function EncodeBody(f: MuxFrame): (r: Result<seq<byte>>)
  {
    match f
    case Open(_, metadata) => if |metadata| > MAX_OPEN_METADATA_LEN then Err(MetadataTooLarge) else Ok(metadata)
    case OpenOk(_, credit) => if credit == 0 then Err(ZeroWindowCredit) else Ok(Be32(credit))
    case OpenErr(_, reason) => if |reason| > MAX_REASON_LEN then Err(ReasonTooLarge) else Ok(reason)
    case Data(_, bytes) =>
      if bytes == [] then Err(EmptyData)
      else if |bytes| > MAX_DATA_LEN then Err(DataTooLarge)
      else Ok(bytes)
    case Window(_, credit) => if credit == 0 then Err(ZeroWindowCredit) else Ok(Be32(credit))
    case Fin(_) => Ok([])
    case Rst(_, reason) => if |reason| > MAX_REASON_LEN then Err(ReasonTooLarge) else Ok(reason)
  }

  function EncodeFrame(f: MuxFrame): (r: Result<Message>)
  {
    if f.id == 0 then Err(ReservedSessionId)
    else
      match EncodeBody(f)
      case Err(e) => Err(e)
      case Ok(body) => Ok(Message(Kind(f), Be64(f.id) + body))
  }

  function DecodeSessionPrefixed(payload: seq<byte>): (r: Result<(u64, seq<byte>)>)
  {
    if |payload| < SESSION_ID_LEN then Err(PayloadTooShort)
    else if FromBe64(payload[..SESSION_ID_LEN]) == 0 then Err(ReservedSessionId)
    else Ok((FromBe64(payload[..SESSION_ID_LEN]), payload[SESSION_ID_LEN..]))
  }

  function DecodeWindow(payload: seq<byte>): (r: Result<(u64, u32)>)
  {
    if |payload| != WINDOW_PAYLOAD_LEN then Err(InvalidPayloadLen)
    else
      match DecodeSessionPrefixed(payload)
      case Err(e) => Err(e)
      case Ok((id, rest)) =>
        if FromBe32(rest) == 0 then Err(ZeroWindowCredit) else Ok((id, FromBe32(rest)))
  }

  function DecodeReason(payload: seq<byte>): (r: Result<(u64, seq<byte>)>)
  {
    match DecodeSessionPrefixed(payload)
    case Err(e) => Err(e)
    case Ok((id, reason)) =>
      if |reason| > MAX_REASON_LEN then Err(ReasonTooLarge)
      else if !IsUtf8(reason) then Err(ReasonNotUtf8)
      else Ok((id, reason))
  }

  function DecodeFrame(m: Message): (r: Result<MuxFrame>)
  {
    if m.kind == MUX_OPEN then
      match DecodeSessionPrefixed(m.payload)
      case Err(e) => Err(e)
      case Ok((id, metadata)) =>
        if |metadata| > MAX_OPEN_METADATA_LEN then Err(MetadataTooLarge) else Ok(Open(id, metadata))
    else if m.kind == MUX_OPEN_OK then
      match DecodeWindow(m.payload)
      case Err(e) => Err(e)
      case Ok((id, credit)) => Ok(OpenOk(id, credit))
    else if m.kind == MUX_OPEN_ERR then
      match DecodeReason(m.payload)
      case Err(e) => Err(e)
      case Ok((id, reason)) => Ok(OpenErr(id, reason))
    else if m.kind == MUX_DATA then
      match DecodeSessionPrefixed(m.payload)
      case Err(e) => Err(e)
      case Ok((id, bytes)) =>
        if bytes == [] then Err(EmptyData)
        else if |bytes| > MAX_DATA_LEN then Err(DataTooLarge)
        else Ok(Data(id, bytes))
    else if m.kind == MUX_WINDOW then
      match DecodeWindow(m.payload)
      case Err(e) => Err(e)
      case Ok((id, credit)) => Ok(Window(id, credit))
    else if m.kind == MUX_FIN then
      if |m.payload| != SESSION_ID_LEN then Err(InvalidPayloadLen)
      else
        match DecodeSessionPrefixed(m.payload)
        case Err(e) => Err(e)
        case Ok((id, _)) => Ok(Fin(id))
    else if m.kind == MUX_RST then
      match DecodeReason(m.payload)
      case Err(e) => Err(e)
      case Ok((id, reason)) => Ok(Rst(id, reason))
    else Err(UnknownType)
  }

  lemma PrefixRoundTrip(id: u64, body: seq<byte>)
    requires id != 0
    ensures DecodeSessionPrefixed(Be64(id) + body) == Ok((id, body))
  {
    Be64RoundTrip(id);
    assert (Be64(id) + body)[..SESSION_ID_LEN] == Be64(id);
    assert (Be64(id) + body)[SESSION_ID_LEN..] == body;
  }

  /** Every frame that encodes decodes to itself, and fits a physical frame. */
  lemma MuxRoundTrip(f: MuxFrame)
    requires Wellformed(f) && EncodeFrame(f).Ok?
    ensures DecodeFrame(EncodeFrame(f).value) == Ok(f)
    ensures Fits(EncodeFrame(f).value)
  {
    PrefixRoundTrip(f.id, EncodeBody(f).value);
    if f.OpenOk? || f.Window? {
      Be32RoundTrip(f.credit);
    }
  }

  /** Decoding accepts only canonical bytes: what it accepts encodes back to the same message. */
  lemma MuxCanonical(m: Message)
    requires DecodeFrame(m).Ok?
    ensures Wellformed(DecodeFrame(m).value)
    ensures EncodeFrame(DecodeFrame(m).value) == Ok(m)
  {
    var f := DecodeFrame(m).value;
    var head, rest := m.payload[..SESSION_ID_LEN], m.payload[SESSION_ID_LEN..];
    FromBe64RoundTrip(head);
    assert m.payload == head + rest;
    if f.OpenOk? || f.Window? {
      FromBe32RoundTrip(rest);
    }
  }

  // ----- Every message, by what it carries -----

  /** What a message of some type says, with a session id and what follows it in its payload. */
  function Meaning(kind: byte, id: u64, body: seq<byte>): (r: Result<MuxFrame>)
  {
    var credited, reasoned := kind == 0x71 || kind == 0x74, kind == 0x72 || kind == 0x76;
    if kind < 0x70 || kind > 0x76 then Err(UnknownType)
    else if (credited && |body| != 4) || (kind == 0x75 && body != []) then Err(InvalidPayloadLen)
    else if id == 0 then Err(ReservedSessionId)
    else if kind == 0x70 && |body| > 4096 then Err(MetadataTooLarge)
    else if kind == 0x73 && body == [] then Err(EmptyData)
    else if kind == 0x73 && |body| > 65536 then Err(DataTooLarge)
    else if credited && FromBe32(body) == 0 then Err(ZeroWindowCredit)
    else if reasoned && |body| > 4096 then Err(ReasonTooLarge)
    else if reasoned && !IsUtf8(body) then Err(ReasonNotUtf8)
    else
      Ok(match kind
         case 0x70 => Open(id, body)
         case 0x71 => OpenOk(id, FromBe32(body))
         case 0x72 => OpenErr(id, body)
         case 0x73 => Data(id, body)
         case 0x74 => Window(id, FromBe32(body))
         case 0x75 => Fin(id)
         case _ => Rst(id, body))
  }

  lemma ZeroPrefix(id: u64, body: seq<byte>)
    ensures |Be64(id) + body| == 8 + |body| && (Be64(id) + body)[8..] == body && FromBe64((Be64(id) + body)[..8]) == id
  {
    Be64RoundTrip(id);
    assert (Be64(id) + body)[..8] == Be64(id);
  }

  /** Decoding a message with a session id in front gives the meaning of its type, its id and the rest. */
  lemma DecodeGivesTheMeaning(kind: byte, id: u64, body: seq<byte>)
    ensures DecodeFrame(Message(kind, Be64(id) + body)) == Meaning(kind, id, body)
  {
    hide IsUtf8, Be64, FromBe64, FromBe32;
    ZeroPrefix(id, body);
  }

  /** A message too short for a session id is refused for that, or for its length where that is fixed. */
  lemma DecodeNeedsAnId(m: Message)
    requires |m.payload| < 8
    ensures DecodeFrame(m) == Err(if m.kind < 0x70 || m.kind > 0x76 then UnknownType
                                  else if m.kind == 0x71 || m.kind == 0x74 || m.kind == 0x75 then InvalidPayloadLen
                                  else PayloadTooShort)
  {
  }

  /** The body a frame would have if nothing were refused. */
  function RawBody(f: MuxFrame): (b: seq<byte>)
  {
    match f
    case Open(_, metadata) => metadata
    case OpenOk(_, credit) => Be32(credit)
    case OpenErr(_, reason) => reason
    case Data(_, bytes) => bytes
    case Window(_, credit) => Be32(credit)
    case Fin(_) => []
    case Rst(_, reason) => reason
  }

  /** The sender refuses exactly the frames the receiver would refuse, for the same reason, and sends the others as they are. */
  lemma SenderRefusesWhatTheReceiverWould(f: MuxFrame)
    requires Wellformed(f)
    ensures var m := Message(Kind(f), Be64(f.id) + RawBody(f));
            EncodeFrame(f) == match DecodeFrame(m) case Ok(_) => Ok(m) case Err(e) => Err(e)
  {
    hide IsUtf8, Be64, FromBe64, Be32, FromBe32;
    DecodeGivesTheMeaning(Kind(f), f.id, RawBody(f));
    if f.OpenOk? || f.Window? {
      Be32RoundTrip(f.credit);
    }
  }

  // ----- A writer loop's byte stream -----

  /** The bytes put on the wire for a list of frames that all encode. */
  function Transmit(fs: seq<MuxFrame>): (r: seq<byte>)
    requires forall f :: f in fs ==> EncodeFrame(f).Ok?
  {
    if fs == [] then [] else WriteFrame(EncodeFrame(fs[0]).value) + Transmit(fs[1..])
  }

  /** What a read loop takes from the wire until it ends or breaks. */
  function Receive(stream: seq<byte>): (r: (seq<MuxFrame>, bool))
    decreases |stream|
  {
    match ReadFrame(stream)
    case Eof => ([], true)
    case Failed(_) => ([], false)
    case Got(m, rest) =>
      match DecodeFrame(m)
      case Err(_) => ([], false)
      case Ok(f) => var (fs, clean) := Receive(rest); ([f] + fs, clean)
  }

  lemma {:induction false} WireRoundTrip(fs: seq<MuxFrame>)
    requires forall f :: f in fs ==> Wellformed(f) && EncodeFrame(f).Ok?
    ensures Receive(Transmit(fs)) == (fs, true)
  {
    if fs != [] {
      WireRoundTrip(fs[1..]);
      MuxRoundTrip(fs[0]);
      WriteThenRead(EncodeFrame(fs[0]).value, Transmit(fs[1..]));
      assert fs == [fs[0]] + fs[1..];
    }
  }
}
