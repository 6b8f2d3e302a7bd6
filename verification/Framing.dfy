/** The wire format of linux/core/src/ipc.rs: a 4-byte big-endian length, then the message body. */
module Framing {
  import opened Wrappers

  type Byte = n: int | 0 <= n < 256

  /** The body codec: encoding may fail, decoding may reject. */
  datatype Codec<!M> = Codec(encode: M -> Option<seq<Byte>>, decode: seq<Byte> -> Option<M>)

  /** Whatever is encoded is decoded to the same message; the one thing assumed of the codec. */
  ghost predicate RoundTrips<M(!new)>(codec: Codec<M>) {
    forall m :: codec.encode(m).Some? ==> codec.decode(codec.encode(m).value) == Some(m)
  }

  const MAX_FRAME_LEN: nat := 8 * 1024 * 1024

  function ToBigEndian(n: nat): (bytes: seq<Byte>)
    requires n < 0x1_0000_0000
    ensures |bytes| == 4
  {
    [n / 0x100_0000, n / 0x1_0000 % 256, n / 256 % 256, n % 256]
  }

  function FromBigEndian(bytes: seq<Byte>): nat
    requires |bytes| == 4
  {
    0x100_0000 * (bytes[0] as int) + 0x1_0000 * (bytes[1] as int) + 256 * (bytes[2] as int) + bytes[3]
  }

  lemma BigEndianRoundTrip(n: nat)
    requires n < 0x1_0000_0000
    ensures FromBigEndian(ToBigEndian(n)) == n
  {
    assert n == n / 256 * 256 + n % 256;
    assert n / 256 / 256 == n / 0x1_0000 && n / 0x1_0000 / 256 == n / 0x100_0000;
  }

  /** The first byte is the most significant one, and there is a length for any four bytes. */
  lemma FirstByteIsMostSignificant(b0: Byte, b1: Byte, b2: Byte, b3: Byte)
    ensures FromBigEndian([b0, b1, b2, b3]) == ((b0 * 256 + b1 as int) * 256 + b2 as int) * 256 + b3 as int
    ensures FromBigEndian([b0, b1, b2, b3]) < 0x1_0000_0000
  {
  }

  function Frame(body: seq<Byte>): seq<Byte>
    requires |body| <= MAX_FRAME_LEN
  {
    ToBigEndian(|body|) + body
  }

  predicate Fits<M>(codec: Codec<M>, m: M) {
    codec.encode(m).Some? && |codec.encode(m).value| <= MAX_FRAME_LEN
  }

  /** A message fits a frame exactly if its body has at most 8 MiB. */
  lemma FitsMeans<M(!new)>(codec: Codec<M>, m: M)
    ensures Fits(codec, m) <==> codec.encode(m).Some? && |codec.encode(m).value| <= 8_388_608
  {
  }

  predicate AllFit<M>(codec: Codec<M>, ms: seq<M>) {
    forall i :: 0 <= i < |ms| ==> Fits(codec, ms[i])
  }

  function FrameOf<M>(codec: Codec<M>, m: M): seq<Byte>
    requires Fits(codec, m)
  {
    Frame(codec.encode(m).value)
  }

  function Frames<M>(codec: Codec<M>, ms: seq<M>): seq<Byte>
    requires AllFit(codec, ms)
  {
    if ms == [] then [] else FrameOf(codec, ms[0]) + Frames(codec, ms[1..])
  }

  // ----- Reading ----------------------------------------------------------

  datatype ReadError = TooLong | Truncated | Undecodable | Broken

  datatype Read<M> = Message(m: M) | Eof | Failed(error: ReadError)

  datatype Filled = Bytes(bytes: seq<Byte>) | AtEnd | Lost

  /** The bytes a peer sends arrive in chunks of any size; then it closes, or the connection is reset. */
  class Stream {
    var chunks: seq<seq<Byte>>
    const reset: bool

    constructor (chunks: seq<seq<Byte>>, reset: bool)
      ensures this.chunks == chunks && this.reset == reset
    {
      this.chunks := chunks;
      this.reset := reset;
    }

    function Pending(): seq<Byte>
      reads this
    {
      Joined(chunks)
    }

    /** read_exact: reads until the buffer is full. */
    method ReadExact(n: nat) returns (r: Filled)
      modifies this
      ensures |old(Pending())| >= n ==> r == Bytes(old(Pending())[..n]) && Pending() == old(Pending())[n..]
      ensures |old(Pending())| < n ==> r == (if reset then Lost else AtEnd) && Pending() == []
    {
      var buf: seq<Byte> := [];
      while |buf| < n
        invariant |buf| <= n && buf + Pending() == old(Pending())
        decreases n - |buf|, |chunks|
      {
        if chunks == [] {
          return if reset then Lost else AtEnd;
        }
        var first := chunks[0];
        if |first| <= n - |buf| {
          assert buf + (first + Joined(chunks[1..])) == buf + first + Joined(chunks[1..]);
          buf := buf + first;
          chunks := chunks[1..];
        } else {
          var k := n - |buf|;
          var tail := chunks[1..];
          assert first + Joined(tail) == first[..k] + (first[k..] + Joined(tail));
          buf := buf + first[..k];
          chunks := [first[k..]] + tail;
          assert chunks[1..] == tail;
        }
      }
      r := Bytes(buf);
    }
  }

  function Joined(chunks: seq<seq<Byte>>): seq<Byte> {
    if chunks == [] then [] else chunks[0] + Joined(chunks[1..])
  }

  /** What the next read gives on these bytes, and what is left of them. */
  function ReadNext<M>(codec: Codec<M>, bytes: seq<Byte>, reset: bool): (r: (Read<M>, seq<Byte>))
    ensures r.0.Message? ==> |r.1| < |bytes|
  {
    if |bytes| < 4 then (if reset then Failed(Broken) else Eof, [])
    else
      var len := FromBigEndian(bytes[..4]);
      var rest := bytes[4..];
      if len > MAX_FRAME_LEN then (Failed(TooLong), rest)
      else if |rest| < len then (Failed(if reset then Broken else Truncated), [])
      else
        match codec.decode(rest[..len])
        case None => (Failed(Undecodable), rest[len..])
        case Some(m) => (Message(m), rest[len..])
  }

  /** A length beyond 8 MiB is refused before any of the body is read, a shorter one never for its length. */
  lemma TooLongExactlyWhen<M>(codec: Codec<M>, bytes: seq<Byte>, reset: bool)
    ensures ReadNext(codec, bytes, reset).0 == Failed(TooLong) <==>
            |bytes| >= 4 && FromBigEndian(bytes[..4]) > 8_388_608
    ensures ReadNext(codec, bytes, reset).0 == Failed(TooLong) ==> ReadNext(codec, bytes, reset).1 == bytes[4..]
  {
  }

  method ReadMsg<M>(codec: Codec<M>, stream: Stream) returns (r: Read<M>)
    modifies stream
    ensures (r, stream.Pending()) == ReadNext(codec, old(stream.Pending()), stream.reset)
  {
    var head := stream.ReadExact(4);
    match head
    case AtEnd => return Eof;
    case Lost => return Failed(Broken);
    case Bytes(lenBuf) =>
      var len := FromBigEndian(lenBuf);
      if len > MAX_FRAME_LEN {
        return Failed(TooLong);
      }
      var body := stream.ReadExact(len);
      match body
      case AtEnd => return Failed(Truncated);
      case Lost => return Failed(Broken);
      case Bytes(b) =>
        match codec.decode(b)
        case None => return Failed(Undecodable);
        case Some(m) => return Message(m);
  }

  /** How a connection ended: the peer asked to close, the stream ended, or a read failed. */
  datatype End = Asked | AtEof | ReadFailed(error: ReadError)

  /** The messages handled on a connection and how it ended; `closes` says which messages ask to close. */
  function Handled<M>(codec: Codec<M>, closes: M -> bool, bytes: seq<Byte>, reset: bool): (seq<M>, End)
    decreases |bytes|
  {
    var (r, rest) := ReadNext(codec, bytes, reset);
    match r
    case Eof => ([], AtEof)
    case Failed(e) => ([], ReadFailed(e))
    case Message(m) =>
      if closes(m) then ([m], Asked)
      else
        var (ms, end) := Handled(codec, closes, rest, reset);
        ([m] + ms, end)
  }

  lemma HandledAfter<M>(codec: Codec<M>, closes: M -> bool, bytes: seq<Byte>, reset: bool, r: Read<M>, rest: seq<Byte>)
    requires (r, rest) == ReadNext(codec, bytes, reset)
    ensures r.Eof? ==> Handled(codec, closes, bytes, reset) == ([], AtEof)
    ensures r.Failed? ==> Handled(codec, closes, bytes, reset) == ([], ReadFailed(r.error))
    ensures r.Message? && closes(r.m) ==> Handled(codec, closes, bytes, reset) == ([r.m], Asked)
    ensures r.Message? && !closes(r.m) ==>
              && |rest| < |bytes|
              && Handled(codec, closes, bytes, reset).0 == [r.m] + Handled(codec, closes, rest, reset).0
              && Handled(codec, closes, bytes, reset).1 == Handled(codec, closes, rest, reset).1
  {
  }

  /** With `handled` done and `bytes` still to come, the connection will have handled and ended as `all` says. */
  ghost predicate Remains<M>(all: (seq<M>, End), handled: seq<M>, codec: Codec<M>, closes: M -> bool,
                             bytes: seq<Byte>, reset: bool) {
    var later := Handled(codec, closes, bytes, reset);
    all.0 == handled + later.0 && all.1 == later.1
  }

  lemma RemainsAfter<M>(all: (seq<M>, End), handled: seq<M>, codec: Codec<M>, closes: M -> bool,
                        bytes: seq<Byte>, reset: bool, r: Read<M>, rest: seq<Byte>)
    requires Remains(all, handled, codec, closes, bytes, reset) && (r, rest) == ReadNext(codec, bytes, reset)
    ensures r.Eof? ==> all == (handled, AtEof)
    ensures r.Failed? ==> all == (handled, ReadFailed(r.error))
    ensures r.Message? && closes(r.m) ==> all == (handled + [r.m], Asked)
    ensures r.Message? && !closes(r.m) ==> |rest| < |bytes| && Remains(all, handled + [r.m], codec, closes, rest, reset)
  {
    HandledAfter(codec, closes, bytes, reset, r, rest);
    assert handled + [] == handled;
  }

  /** The read loop of handle_conn. */
  method ReadLoop<M>(codec: Codec<M>, closes: M -> bool, stream: Stream) returns (handled: seq<M>, end: End)
    modifies stream
    ensures (handled, end) == Handled(codec, closes, old(stream.Pending()), stream.reset)
  {
    handled := [];
    ghost var all := Handled(codec, closes, stream.Pending(), stream.reset);
    while true
      invariant Remains(all, handled, codec, closes, stream.Pending(), stream.reset)
      decreases |stream.Pending()|
    {
      ghost var before := stream.Pending();
      var r := ReadMsg(codec, stream);
      RemainsAfter(all, handled, codec, closes, before, stream.reset, r, stream.Pending());
      match r
      case Eof => return handled, AtEof;
      case Failed(e) => return handled, ReadFailed(e);
      case Message(m) =>
        handled := handled + [m];
        if closes(m) {
          return handled, Asked;
        }
    }
  }

  // ----- Round trip -------------------------------------------------------

  /** A whole frame at the front is read back as its message, and exactly it is consumed. */
  lemma FrameReadsBack<M(!new)>(codec: Codec<M>, m: M, rest: seq<Byte>, reset: bool)
    requires RoundTrips(codec) && Fits(codec, m)
    ensures ReadNext(codec, FrameOf(codec, m) + rest, reset) == (Message(m), rest)
  {
    var body := codec.encode(m).value;
    var bytes := FrameOf(codec, m) + rest;
    BigEndianRoundTrip(|body|);
    assert bytes[..4] == ToBigEndian(|body|) && bytes[4..] == body + rest;
    assert bytes[4..][..|body|] == body && bytes[4..][|body|..] == rest;
  }

  /** What a read says of a frame that was cut short after `cut` bytes. */
  function CutShort(cut: nat, reset: bool): End {
    if cut < 4 then (if reset then ReadFailed(Broken) else AtEof)
    else ReadFailed(if reset then Broken else Truncated)
  }

  lemma PartReadsShort<M>(codec: Codec<M>, m: M, cut: nat, reset: bool, closes: M -> bool)
    requires Fits(codec, m) && cut < |FrameOf(codec, m)|
    ensures Handled(codec, closes, FrameOf(codec, m)[..cut], reset) == ([], CutShort(cut, reset))
  {
    var body := codec.encode(m).value;
    var bytes := FrameOf(codec, m)[..cut];
    if cut >= 4 {
      BigEndianRoundTrip(|body|);
      assert bytes[..4] == ToBigEndian(|body|);
    }
  }

  /** The messages up to and including the first that asks to close. */
  function UpToClose<M>(ms: seq<M>, closes: M -> bool): seq<M> {
    if ms == [] then [] else if closes(ms[0]) then [ms[0]] else [ms[0]] + UpToClose(ms[1..], closes)
  }

  /** Exactly the first `k` messages' frames lie wholly in the first `cut` bytes. */
  predicate WholeIn<M>(codec: Codec<M>, ms: seq<M>, cut: nat, k: nat)
    requires AllFit(codec, ms)
  {
    && k <= |ms|
    && |Frames(codec, ms[..k])| <= cut
    && (k < |ms| ==> cut < |Frames(codec, ms[..k + 1])|)
  }

  lemma {:induction false} Split<M>(codec: Codec<M>, ms: seq<M>, k: nat)
    requires AllFit(codec, ms) && 0 < k <= |ms|
    ensures |Frames(codec, ms[..k])| == |FrameOf(codec, ms[0])| + |Frames(codec, ms[1..][..k - 1])|
  {
    assert ms[..k][1..] == ms[1..][..k - 1];
  }

  predicate Asks<M>(ms: seq<M>, closes: M -> bool) {
    exists i :: 0 <= i < |ms| && closes(ms[i])
  }

  /** How the loop ends when it has read `ms` and then `left` bytes of a further frame. */
  function EndAfter<M>(ms: seq<M>, closes: M -> bool, left: nat, reset: bool): End {
    if Asks(ms, closes) then Asked else CutShort(left, reset)
  }

  /** For every list of messages and every prefix of its bytes, the loop handles exactly the messages whose
      frames lie wholly in the prefix, up to the first that asks to close. Unless one did, it then sees the
      end of the stream if fewer than four bytes remain, and an error otherwise. */
  lemma {:induction false} PrefixYieldsWholeFrames<M(!new)>(
      codec: Codec<M>, closes: M -> bool, ms: seq<M>, cut: nat, reset: bool) returns (k: nat)
    requires RoundTrips(codec) && AllFit(codec, ms) && cut <= |Frames(codec, ms)|
    ensures WholeIn(codec, ms, cut, k)
    ensures Handled(codec, closes, Frames(codec, ms)[..cut], reset) ==
            (UpToClose(ms[..k], closes), EndAfter(ms[..k], closes, cut - |Frames(codec, ms[..k])|, reset))
    decreases |ms|
  {
    if ms == [] || cut < |FrameOf(codec, ms[0])| {
      k := 0;
      NoWholeFrame(codec, closes, ms, cut, reset);
    } else {
      var k' := PrefixYieldsWholeFrames(codec, closes, ms[1..], cut - |FrameOf(codec, ms[0])|, reset);
      k := k' + 1;
      FirstOfThePrefix(codec, closes, ms, cut, reset, k);
    }
  }

  lemma NoWholeFrame<M(!new)>(codec: Codec<M>, closes: M -> bool, ms: seq<M>, cut: nat, reset: bool)
    requires AllFit(codec, ms) && cut <= |Frames(codec, ms)|
    requires ms != [] ==> cut < |FrameOf(codec, ms[0])|
    ensures WholeIn(codec, ms, cut, 0)
    ensures Handled(codec, closes, Frames(codec, ms)[..cut], reset) ==
            (UpToClose(ms[..0], closes), EndAfter(ms[..0], closes, cut - |Frames(codec, ms[..0])|, reset))
  {
    if ms != [] {
      assert Frames(codec, ms)[..cut] == FrameOf(codec, ms[0])[..cut];
      PartReadsShort(codec, ms[0], cut, reset, closes);
      assert ms[..1][1..] == [];
    }
  }

  lemma FirstOfThePrefix<M(!new)>(codec: Codec<M>, closes: M -> bool, ms: seq<M>, cut: nat, reset: bool, k: nat)
    requires RoundTrips(codec) && AllFit(codec, ms) && 0 < k <= |ms|
    requires |FrameOf(codec, ms[0])| <= cut <= |Frames(codec, ms)|
    requires var left, tail := cut - |FrameOf(codec, ms[0])|, ms[1..];
             && WholeIn(codec, tail, left, k - 1)
             && Handled(codec, closes, Frames(codec, tail)[..left], reset) ==
                (UpToClose(tail[..k - 1], closes),
                 EndAfter(tail[..k - 1], closes, left - |Frames(codec, tail[..k - 1])|, reset))
    ensures WholeIn(codec, ms, cut, k)
    ensures Handled(codec, closes, Frames(codec, ms)[..cut], reset) ==
            (UpToClose(ms[..k], closes), EndAfter(ms[..k], closes, cut - |Frames(codec, ms[..k])|, reset))
  {
    OneFrameMore(codec, ms, cut, k);
    HandledSteps(codec, closes, ms, cut, reset);
    TakeOneMore(ms, closes, k, cut - |Frames(codec, ms[..k])|, reset);
  }

  lemma OneFrameMore<M>(codec: Codec<M>, ms: seq<M>, cut: nat, k: nat)
    requires AllFit(codec, ms) && 0 < k <= |ms| && |FrameOf(codec, ms[0])| <= cut
    requires WholeIn(codec, ms[1..], cut - |FrameOf(codec, ms[0])|, k - 1)
    ensures WholeIn(codec, ms, cut, k)
    ensures |Frames(codec, ms[..k])| == |FrameOf(codec, ms[0])| + |Frames(codec, ms[1..][..k - 1])|
  {
    Split(codec, ms, k);
    if k < |ms| {
      Split(codec, ms, k + 1);
    }
  }

  lemma TakeOneMore<M>(ms: seq<M>, closes: M -> bool, k: nat, left: nat, reset: bool)
    requires 0 < k <= |ms|
    ensures UpToClose(ms[..k], closes) ==
            if closes(ms[0]) then [ms[0]] else [ms[0]] + UpToClose(ms[1..][..k - 1], closes)
    ensures EndAfter(ms[..k], closes, left, reset) ==
            if closes(ms[0]) then Asked else EndAfter(ms[1..][..k - 1], closes, left, reset)
  {
    var all, later := ms[..k], ms[1..][..k - 1];
    assert all[1..] == later && all == [ms[0]] + later;
    assert closes(ms[0]) ==> closes(all[0]);
    if i :| 0 < i < |all| && closes(all[i]) {
      assert closes(later[i - 1]);
    }
    if i :| 0 <= i < |later| && closes(later[i]) {
      assert closes(all[i + 1]);
    }
  }

  /** Reading a prefix that holds the first frame. */
  lemma HandledSteps<M(!new)>(codec: Codec<M>, closes: M -> bool, ms: seq<M>, cut: nat, reset: bool)
    requires RoundTrips(codec) && AllFit(codec, ms) && ms != []
    requires |FrameOf(codec, ms[0])| <= cut <= |Frames(codec, ms)|
    ensures var later := Handled(codec, closes, Frames(codec, ms[1..])[..cut - |FrameOf(codec, ms[0])|], reset);
            Handled(codec, closes, Frames(codec, ms)[..cut], reset) ==
            if closes(ms[0]) then ([ms[0]], Asked) else ([ms[0]] + later.0, later.1)
  {
    var first, rest := FrameOf(codec, ms[0]), Frames(codec, ms[1..]);
    assert (first + rest)[..cut] == first + rest[..cut - |first|];
    FrameReadsBack(codec, ms[0], rest[..cut - |first|], reset);
  }

  /** The loop takes the stream for cleanly ended not only at a frame boundary but exactly when fewer than
      four bytes of a further frame have come. */
  lemma {:induction false} CleanEndExactlyWhen<M(!new)>(codec: Codec<M>, closes: M -> bool, ms: seq<M>, cut: nat)
    returns (k: nat)
    requires RoundTrips(codec) && AllFit(codec, ms) && cut <= |Frames(codec, ms)|
    ensures WholeIn(codec, ms, cut, k)
    ensures Handled(codec, closes, Frames(codec, ms)[..cut], false).1 == AtEof <==>
            !Asks(ms[..k], closes) && cut - |Frames(codec, ms[..k])| < 4
  {
    k := PrefixYieldsWholeFrames(codec, closes, ms, cut, false);
  }

  /** Two bytes of a length and then the end: no error, and the message is gone. */
  lemma CutLengthLooksClean<M>(codec: Codec<M>, closes: M -> bool, m: M)
    requires Fits(codec, m)
    ensures Handled(codec, closes, FrameOf(codec, m)[..2], false) == ([], AtEof)
  {
    PartReadsShort(codec, m, 2, false, closes);
  }

  // ----- Writing ----------------------------------------------------------

  /** The sending side of a connection that takes `room` more bytes before it breaks. */
  class Sink {
    var bytes: seq<Byte>
    var room: nat

    constructor (room: nat)
      ensures bytes == [] && this.room == room
    {
      bytes := [];
      this.room := room;
    }

    method WriteAll(data: seq<Byte>) returns (ok: bool)
      modifies this
      ensures ok == (|data| <= old(room))
      ensures bytes == old(bytes) + Cut(data, old(room))
      ensures room == if ok then old(room) - |data| else 0
    {
      ok := |data| <= room;
      var n := if ok then |data| else room;
      bytes := bytes + data[..n];
      room := room - n;
    }
  }

  datatype WriteError = Unencodable | TooLarge | Closed

  function Cut(data: seq<Byte>, room: nat): seq<Byte> {
    if |data| <= room then data else data[..room]
  }

  /** A message that cannot be framed writes nothing; any other writes its frame, or as much as there is
      room for. */
  method WriteMsg<M>(codec: Codec<M>, sink: Sink, m: M) returns (r: Result<(), WriteError>)
    modifies sink
    ensures !Fits(codec, m) ==> r.Err? && sink.bytes == old(sink.bytes) && sink.room == old(sink.room)
    ensures Fits(codec, m) ==>
              && sink.bytes == old(sink.bytes) + Cut(FrameOf(codec, m), old(sink.room))
              && r == (if |FrameOf(codec, m)| <= old(sink.room) then Ok(()) else Err(Closed))
              && (r.Ok? ==> sink.room == old(sink.room) - |FrameOf(codec, m)|)
  {
    var body := codec.encode(m);
    if body.None? {
      return Err(Unencodable);
    }
    if |body.value| > MAX_FRAME_LEN {
      return Err(TooLarge);
    }
    var header := ToBigEndian(|body.value|);
    CutConcat(sink.bytes, header, body.value, sink.room);
    var ok := sink.WriteAll(header);
    if ok {
      ok := sink.WriteAll(body.value);
    }
    return if ok then Ok(()) else Err(Closed);
  }

  /** The messages the writer task tries to send: it stops at the first that cannot be framed. */
  function Sendable<M>(codec: Codec<M>, queue: seq<M>): (ms: seq<M>)
    ensures AllFit(codec, ms) && ms <= queue
    ensures |ms| < |queue| ==> !Fits(codec, queue[|ms|])
  {
    if queue == [] || !Fits(codec, queue[0]) then [] else [queue[0]] + Sendable(codec, queue[1..])
  }

  method WriterTask<M>(codec: Codec<M>, sink: Sink, queue: seq<M>)
    modifies sink
    ensures sink.bytes == old(sink.bytes) + Cut(Frames(codec, Sendable(codec, queue)), old(sink.room))
  {
    var i := 0;
    while i < |queue|
      invariant 0 <= i <= |queue|
      invariant old(sink.bytes) + Cut(Frames(codec, Sendable(codec, queue)), old(sink.room))
             == sink.bytes + Cut(Frames(codec, Sendable(codec, queue[i..])), sink.room)
    {
      ghost var bytes, room, later := sink.bytes, sink.room, Sendable(codec, queue[i + 1..]);
      assert queue[i..][0] == queue[i] && queue[i..][1..] == queue[i + 1..];
      var r := WriteMsg(codec, sink, queue[i]);
      if Fits(codec, queue[i]) {
        assert ([queue[i]] + later)[1..] == later;
        CutConcat(bytes, FrameOf(codec, queue[i]), Frames(codec, later), room);
      }
      if r.Err? {
        break;
      }
      i := i + 1;
    }
  }

  lemma CutConcat(start: seq<Byte>, a: seq<Byte>, b: seq<Byte>, room: nat)
    ensures start + Cut(a + b, room) ==
            if |a| <= room then start + a + Cut(b, room - |a|) else start + Cut(a, room)
  {
  }

  /** Whatever the peer queues, wherever the connection breaks and however the bytes are chunked, what is
      handled is a prefix of the queue: nothing is reordered, repeated, altered or made up. */
  lemma {:induction false} DeliveredInOrder<M(!new)>(codec: Codec<M>, closes: M -> bool, queue: seq<M>, room: nat,
                                                     reset: bool)
    requires RoundTrips(codec)
    ensures Handled(codec, closes, Cut(Frames(codec, Sendable(codec, queue)), room), reset).0 <= queue
  {
    var ms := Sendable(codec, queue);
    var all := Frames(codec, ms);
    var cut := if |all| <= room then |all| else room;
    assert Cut(all, room) == all[..cut];
    var k := PrefixYieldsWholeFrames(codec, closes, ms, cut, reset);
    UpToCloseIsPrefix(ms[..k], closes);
  }

  /** The handled messages are the ones up to the first that asks to close, it included, or all if none does. */
  lemma {:induction false} UpToCloseIsPrefix<M>(ms: seq<M>, closes: M -> bool)
    ensures UpToClose(ms, closes) <= ms
    ensures forall i :: 0 <= i < |UpToClose(ms, closes)| - 1 ==> !closes(ms[i])
    ensures |UpToClose(ms, closes)| < |ms| ==>
              UpToClose(ms, closes) != [] && closes(ms[|UpToClose(ms, closes)| - 1])
  {
    if ms != [] {
      UpToCloseIsPrefix(ms[1..], closes);
      var rest := UpToClose(ms[1..], closes);
      assert forall i :: 0 < i < |ms| ==> ms[i] == ms[1..][i - 1];
    }
  }

  /** On a connection that does not break, everything queued is handled, up to the first message that asks to close. */
  lemma {:induction false} UnbrokenDeliversAll<M(!new)>(codec: Codec<M>, closes: M -> bool, queue: seq<M>, room: nat)
    requires RoundTrips(codec) && AllFit(codec, queue) && |Frames(codec, queue)| <= room
    ensures Handled(codec, closes, Cut(Frames(codec, Sendable(codec, queue)), room), false) ==
            (UpToClose(queue, closes), if Asks(queue, closes) then Asked else AtEof)
  {
    AllSendable(codec, queue);
    var all := Frames(codec, queue);
    assert all[..|all|] == all;
    var k := PrefixYieldsWholeFrames(codec, closes, queue, |all|, false);
    if k < |queue| {
      FramesGrow(codec, queue, k + 1);
    }
    assert queue[..|queue|] == queue;
  }

  lemma {:induction false} AllSendable<M>(codec: Codec<M>, queue: seq<M>)
    requires AllFit(codec, queue)
    ensures Sendable(codec, queue) == queue
  {
    if queue != [] {
      AllSendable(codec, queue[1..]);
    }
  }

  lemma {:induction false} FramesGrow<M>(codec: Codec<M>, ms: seq<M>, k: nat)
    requires AllFit(codec, ms) && k <= |ms|
    ensures |Frames(codec, ms[..k])| <= |Frames(codec, ms)|
  {
    if k > 0 {
      Split(codec, ms, k);
      FramesGrow(codec, ms[1..], k - 1);
    }
  }
}
