/** The byte stream over a channel of chunks, with bytes that can be put back in front. */
module ChannelStream {
  import opened Bytes

  // ----- State and operations -----

  /** `backlog` holds the chunks sent and not yet received; `open` says whether the sender still exists. */
  datatype State = State(buffer: seq<byte>, pos: nat, backlog: seq<seq<byte>>, open: bool)

  const NEW := State([], 0, [], true)

  datatype Poll = Pending | Ready(bytes: seq<byte>)

  predicate Valid(s: State)
  {
    s.pos <= |s.buffer|
  }

  /** Everything that has arrived and was not read. */
  function Undelivered(s: State): (r: seq<byte>)
    requires Valid(s)
  {
    s.buffer[s.pos..] + Flatten(s.backlog)
  }

  function PrependTo(s: State, data: seq<byte>): (r: State)
    requires Valid(s)
  {
    s.(buffer := if s.pos < |s.buffer| then data + s.buffer[s.pos..] else data, pos := 0)
  }

  /** A read into `room` bytes of space. */
  function PollRead(s: State, room: nat): (r: (State, Poll))
    requires Valid(s)
    ensures Valid(r.0)
  {
    if s.pos < |s.buffer| then
      var n := Least(|s.buffer| - s.pos, room);
      var bytes := s.buffer[s.pos..s.pos + n];
      if s.pos + n >= |s.buffer| then (s.(buffer := [], pos := 0), Ready(bytes)) else (s.(pos := s.pos + n), Ready(bytes))
    else if s.backlog != [] then
      var chunk := s.backlog[0];
      var n := Least(|chunk|, room);
      if n < |chunk| then (s.(buffer := chunk, pos := n, backlog := s.backlog[1..]), Ready(chunk[..n]))
      else (s.(backlog := s.backlog[1..]), Ready(chunk))
    else (s, if s.open then Pending else Ready([]))
  }

  class Stream {
    var buffer: seq<byte>
    var pos: nat
    var backlog: seq<seq<byte>>
    var open: bool

    function Value(): (s: State)
      reads this
    {
      State(buffer, pos, backlog, open)
    }

    constructor ()
      ensures Value() == NEW
    {
      buffer, pos, backlog, open := [], 0, [], true;
    }

    method Prepend(data: seq<byte>)
      requires Valid(Value())
      modifies this
      ensures Value() == PrependTo(old(Value()), data) && Valid(Value())
    {
      if pos < |buffer| {
        var remaining := buffer[pos..];
        buffer := data;
        buffer := buffer + remaining;
      } else {
        buffer := data;
      }
      pos := 0;
    }

    method Read(room: nat) returns (poll: Poll)
      requires Valid(Value())
      modifies this
      ensures (Value(), poll) == PollRead(old(Value()), room)
    {
      if pos < |buffer| {
        var available := buffer[pos..];
        var n := Least(|available|, room);
        assert available[..n] == buffer[pos..pos + n];
        poll := Ready(available[..n]);
        pos := pos + n;
        if pos >= |buffer| {
          buffer := [];
          pos := 0;
        }
        return;
      }
      if backlog != [] {
        var data := backlog[0];
        backlog := backlog[1..];
        var n := Least(|data|, room);
        if n < |data| {
          buffer := data;
          pos := n;
        }
        assert n == |data| ==> data[..n] == data;
        return Ready(data[..n]);
      }
      return if open then Pending else Ready([]);
    }
  }

  // ----- One operation -----

  lemma PrependGoesFirst(s: State, data: seq<byte>)
    requires Valid(s)
    ensures Undelivered(PrependTo(s, data)) == data + Undelivered(s)
  {
    var r := PrependTo(s, data);
    assert r.buffer[0..] == r.buffer;
    if s.pos < |s.buffer| {
      assert data + s.buffer[s.pos..] + Flatten(s.backlog) == data + (s.buffer[s.pos..] + Flatten(s.backlog));
    } else {
      assert s.buffer[s.pos..] == [];
      assert [] + Flatten(s.backlog) == Flatten(s.backlog);
    }
  }

  /** A read takes a prefix of the undelivered stream that fits the space, and leaves the rest. */
  lemma ReadTakesAPrefix(s: State, room: nat)
    requires Valid(s)
    ensures var (r, poll) := PollRead(s, room);
            match poll
            case Pending => r == s && Undelivered(s) == []
            case Ready(bytes) => |bytes| <= room && Undelivered(s) == bytes + Undelivered(r)
  {
    if s.pos < |s.buffer| {
      BufferedRead(s, room);
    } else if s.backlog != [] {
      ChunkRead(s, room);
    } else {
      assert [] + Undelivered(s) == Undelivered(s);
    }
  }

  /** The bytes a read can take from: what is left of the buffer, or else the next chunk. */
  function Current(s: State): (r: seq<byte>)
    requires Valid(s)
  {
    if s.pos < |s.buffer| then s.buffer[s.pos..] else if s.backlog != [] then s.backlog[0] else []
  }

  /** A read waits only on an open stream with nothing in it; otherwise it takes as much of those bytes as there is space for. */
  lemma ReadTakesWhatItCan(s: State, room: nat)
    requires Valid(s)
    ensures PollRead(s, room).1 ==
            if Current(s) == [] && s.backlog == [] && s.open then Pending
            else Ready(Current(s)[..Least(|Current(s)|, room)])
  {
    var poll := PollRead(s, room).1;
    if poll.Ready? {
      assert poll.bytes == Current(s)[..Least(|Current(s)|, room)];
    }
  }

  lemma BufferedRead(s: State, room: nat)
    requires Valid(s) && s.pos < |s.buffer|
    ensures var (r, poll) := PollRead(s, room);
            poll.Ready? && |poll.bytes| <= room && Undelivered(s) == poll.bytes + Undelivered(r)
  {
    hide Flatten;
    var (r, poll) := PollRead(s, room);
    var tail, left, rest := s.buffer[s.pos..], r.buffer[r.pos..], Flatten(s.backlog);
    assert tail == poll.bytes + left;
    assert poll.bytes + left + rest == poll.bytes + (left + rest);
  }

  lemma ChunkRead(s: State, room: nat)
    requires Valid(s) && s.pos == |s.buffer| && s.backlog != []
    ensures var (r, poll) := PollRead(s, room);
            poll.Ready? && |poll.bytes| <= room && Undelivered(s) == poll.bytes + Undelivered(r)
  {
    var (r, poll) := PollRead(s, room);
    var chunk, left, others := s.backlog[0], r.buffer[r.pos..], Flatten(s.backlog[1..]);
    assert Undelivered(s) == Flatten(s.backlog) == chunk + others;
    assert chunk == poll.bytes + left;
    assert poll.bytes + left + others == poll.bytes + (left + others);
  }

  /** With space to fill, a read returns nothing exactly at the end of the stream or on an empty chunk. */
  lemma EmptyReadMeans(s: State, room: nat)
    requires Valid(s) && room > 0
    ensures PollRead(s, room).1 == Ready([]) <==>
              s.pos == |s.buffer| && (if s.backlog == [] then !s.open else s.backlog[0] == [])
  {
  }

  lemma PutBack(s: State, room: nat)
    requires Valid(s) && PollRead(s, room).1.Ready?
    ensures var (r, poll) := PollRead(s, room); Undelivered(PrependTo(r, poll.bytes)) == Undelivered(s)
  {
    var (r, poll) := PollRead(s, room);
    ReadTakesAPrefix(s, room);
    PrependGoesFirst(r, poll.bytes);
  }

  // ----- Any interleaving -----

  datatype Event = Arrive(chunk: seq<byte>) | Close | Prepend(data: seq<byte>) | Read(room: nat)

  /** What happens to the stream, and the bytes handed to the reader. */
  function Step(s: State, e: Event): (r: (State, seq<byte>))
    requires Valid(s)
    ensures Valid(r.0)
  {
    match e
    case Arrive(chunk) => (if s.open then s.(backlog := s.backlog + [chunk]) else s, [])
    case Close => (s.(open := false), [])
    case Prepend(data) => (PrependTo(s, data), [])
    case Read(room) => var (r, poll) := PollRead(s, room); (r, if poll.Ready? then poll.bytes else [])
  }

  /** The same events on a plain queue of bytes, which gives up as many bytes per read as the stream did. */
  function Queue(q: seq<byte>, s: State, es: seq<Event>): (r: (seq<byte>, seq<byte>))
    requires Valid(s)
    decreases |es|
  {
    if es == [] then (q, [])
    else
      var (next, bytes) := Step(s, es[0]);
      var changed :=
        match es[0]
        case Arrive(chunk) => if s.open then q + chunk else q
        case Close => q
        case Prepend(data) => data + q
        case Read(_) => q[Least(|bytes|, |q|)..];
      var given := if es[0].Read? then q[..Least(|bytes|, |q|)] else [];
      var (end, later) := Queue(changed, next, es[1..]);
      (end, given + later)
  }

  function Run(s: State, es: seq<Event>): (r: (State, seq<byte>))
    requires Valid(s)
    ensures Valid(r.0)
    decreases |es|
  {
    if es == [] then (s, [])
    else
      var (next, bytes) := Step(s, es[0]);
      var (end, later) := Run(next, es[1..]);
      (end, bytes + later)
  }

  lemma ArrivalGoesLast(s: State, chunk: seq<byte>)
    requires Valid(s)
    ensures Undelivered(s.(backlog := s.backlog + [chunk])) == Undelivered(s) + chunk
  {
    FlattenSnoc(s.backlog, chunk);
    assert s.buffer[s.pos..] + (Flatten(s.backlog) + chunk) == s.buffer[s.pos..] + Flatten(s.backlog) + chunk;
  }

  /** The stream behaves as a byte queue: nothing is lost, repeated or reordered, whatever the interleaving. */
  lemma {:induction false} StreamIsAQueue(s: State, es: seq<Event>)
    requires Valid(s)
    ensures var (end, delivered) := Run(s, es);
            Queue(Undelivered(s), s, es) == (Undelivered(end), delivered)
    decreases |es|
  {
    if es != [] {
      hide PollRead, PrependTo;
      var q := Undelivered(s);
      var (next, bytes) := Step(s, es[0]);
      match es[0] {
        case Arrive(chunk) => ArrivalGoesLast(s, chunk);
        case Close => assert Undelivered(next) == q;
        case Prepend(data) => PrependGoesFirst(s, data);
        case Read(room) =>
          ReadTakesAPrefix(s, room);
          assert q[..|bytes|] == bytes && q[|bytes|..] == Undelivered(next);
      }
      StreamIsAQueue(next, es[1..]);
    }
  }

  /** The bytes an event adds at the end of the stream. */
  function Added(s: State, e: Event): (r: seq<byte>)
  {
    if e.Arrive? && s.open then e.chunk else []
  }

  function Arrived(s: State, es: seq<Event>): (r: seq<byte>)
    requires Valid(s)
    decreases |es|
  {
    if es == [] then [] else Added(s, es[0]) + Arrived(Step(s, es[0]).0, es[1..])
  }

  lemma StepConserves(s: State, e: Event)
    requires Valid(s) && !e.Prepend?
    ensures var (next, bytes) := Step(s, e); bytes + Undelivered(next) == Undelivered(s) + Added(s, e)
  {
    hide PollRead;
    match e
    case Arrive(chunk) => ArrivalGoesLast(s, chunk);
    case Close =>
    case Read(room) => ReadTakesAPrefix(s, room);
  }

  /** Without put-backs: the bytes delivered, then those still undelivered, are those that were there and arrived. */
  lemma {:induction false} BytesAreConserved(s: State, es: seq<Event>)
    requires Valid(s) && forall i :: 0 <= i < |es| ==> !es[i].Prepend?
    ensures var (end, delivered) := Run(s, es);
            delivered + Undelivered(end) == Undelivered(s) + Arrived(s, es)
    decreases |es|
  {
    hide Step, Undelivered, Added;
    if es != [] {
      var (next, bytes) := Step(s, es[0]);
      var (end, later) := Run(next, es[1..]);
      var more := Arrived(next, es[1..]);
      StepConserves(s, es[0]);
      BytesAreConserved(next, es[1..]);
      calc {
        bytes + later + Undelivered(end);
        bytes + (later + Undelivered(end));
        bytes + (Undelivered(next) + more);
        bytes + Undelivered(next) + more;
        Undelivered(s) + Added(s, es[0]) + more;
        Undelivered(s) + (Added(s, es[0]) + more);
      }
    }
  }

  // ----- Reading to the end -----

  /** Reads with space for `room` bytes until a read returns nothing, as a reader does that takes that for the end. */
  function ReadToEnd(s: State, room: nat): (r: seq<byte>)
    requires Valid(s) && room > 0 && !s.open
    decreases |s.backlog|, |s.buffer| - s.pos
  {
    var (next, poll) := PollRead(s, room);
    if poll.Pending? || poll.bytes == [] then [] else poll.bytes + ReadToEnd(next, room)
  }

  /** The chunks up to the first empty one. */
  function UpToGap(chunks: seq<seq<byte>>): (r: seq<byte>)
  {
    if chunks == [] || chunks[0] == [] then [] else chunks[0] + UpToGap(chunks[1..])
  }

  lemma NonEmptyRead(s: State, room: nat)
    requires Valid(s) && room > 0 && !s.open
    ensures var (next, poll) := PollRead(s, room);
            && poll.Ready? && next.open == s.open
            && (poll.bytes != [] ==>
                  if s.pos < |s.buffer| then
                    next.backlog == s.backlog && s.buffer[s.pos..] == poll.bytes + next.buffer[next.pos..]
                  else
                    s.backlog != [] && s.backlog[0] != [] && next.backlog == s.backlog[1..]
                    && s.backlog[0] == poll.bytes + next.buffer[next.pos..])
  {
  }

  /** Such a reader gets the buffer and the chunks before the first empty one. */
  lemma {:induction false} ReaderStopsAtAGap(s: State, room: nat)
    requires Valid(s) && room > 0 && !s.open
    ensures ReadToEnd(s, room) == s.buffer[s.pos..] + UpToGap(s.backlog)
    decreases |s.backlog|, |s.buffer| - s.pos
  {
    hide PollRead;
    var (next, poll) := PollRead(s, room);
    EmptyReadMeans(s, room);
    NonEmptyRead(s, room);
    var tail, left := s.buffer[s.pos..], next.buffer[next.pos..];
    if poll.bytes != [] {
      ReaderStopsAtAGap(next, room);
      var after := UpToGap(next.backlog);
      assert poll.bytes + (left + after) == poll.bytes + left + after;
      assert s.pos == |s.buffer| ==> tail + UpToGap(s.backlog) == UpToGap(s.backlog);
    }
  }

  lemma {:induction false} GapLosesBytes(chunks: seq<seq<byte>>)
    ensures |UpToGap(chunks)| <= |Flatten(chunks)|
    ensures UpToGap(chunks) == Flatten(chunks) <==>
              forall i, j :: 0 <= i < j < |chunks| && chunks[i] == [] ==> chunks[j] == []
  {
    if chunks != [] {
      var rest := chunks[1..];
      GapLosesBytes(rest);
      assert forall j :: 1 <= j < |chunks| ==> chunks[j] == rest[j - 1];
      if chunks[0] == [] {
        FlattenEmpty(rest);
        assert Flatten(chunks) == Flatten(rest);
        if forall j :: 0 <= j < |rest| ==> rest[j] == [] {
        } else {
          var j :| 0 <= j < |rest| && rest[j] != [];
          assert chunks[j + 1] != [];
        }
      } else {
        var a, b := UpToGap(rest), Flatten(rest);
        assert (chunks[0] + a)[|chunks[0]|..] == a && (chunks[0] + b)[|chunks[0]|..] == b;
        if i, j :| 0 <= i < j < |rest| && rest[i] == [] && rest[j] != [] {
          assert chunks[i + 1] == [] && chunks[j + 1] != [];
        }
      }
    }
  }

  lemma {:induction false} FlattenEmpty(chunks: seq<seq<byte>>)
    ensures Flatten(chunks) == [] <==> forall j :: 0 <= j < |chunks| ==> chunks[j] == []
  {
    if chunks != [] {
      FlattenEmpty(chunks[1..]);
      assert forall j :: 1 <= j < |chunks| ==> chunks[j] == chunks[1..][j - 1];
    }
  }

  /** It gets the whole stream if and only if no data follows an empty chunk in the backlog. */
  lemma ReaderGetsEverythingIff(s: State, room: nat)
    requires Valid(s) && room > 0 && !s.open
    ensures ReadToEnd(s, room) == Undelivered(s) <==>
              forall i, j :: 0 <= i < j < |s.backlog| && s.backlog[i] == [] ==> s.backlog[j] == []
  {
    ReaderStopsAtAGap(s, room);
    GapLosesBytes(s.backlog);
    var tail, a, b := s.buffer[s.pos..], UpToGap(s.backlog), Flatten(s.backlog);
    assert (tail + a)[|tail|..] == a && (tail + b)[|tail|..] == b;
  }
}
