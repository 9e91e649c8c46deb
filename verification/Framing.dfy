/** Length-prefixed framing over a byte stream (crates/radin-transport/src/tcp.rs).

    The socket is a script of read results: bytes that have arrived, or an error
    of one `read` call. An empty result means that the peer closed the stream. */
module Framing {
  type byte = x: int | 0 <= x < 256

  const MAX_FRAME := 1400 * 64
  const READ_LIMIT := 65_535
  const U32 := 0x1_0000_0000

  datatype ReadEvent = Data(bytes: seq<byte>) | Fault(detail: string)

  datatype Error = OutOfRange | Closed | Io(detail: string)

  datatype Outcome = Frame(payload: seq<byte>) | NoFrame | Failure(error: Error)

  datatype Reading = Bytes(bytes: seq<byte>) | ReadError(error: Error)

  // ---------------------------------------------------------------------
  // The wire format

  // Four bytes, most significant first.
  function BigEndian(n: nat): (b: seq<byte>)
    requires n < U32
    ensures |b| == 4
  {
    [n / 0x100_0000, n / 0x1_0000 % 256, n / 0x100 % 256, n % 256]
  }

  function FromBigEndian(b: seq<byte>): (n: nat)
    requires |b| == 4
  {
    var b0: int, b1: int, b2: int, b3: int := b[0], b[1], b[2], b[3];
    ((b0 * 256 + b1) * 256 + b2) * 256 + b3
  }

  lemma BigEndianRoundTrip(n: nat)
    requires n < U32
    ensures FromBigEndian(BigEndian(n)) == n
  {
    var h := n / 256;
    assert n == h * 256 + n % 256;
    assert n / 0x1_0000 == h / 256 && n / 0x100_0000 == h / 256 / 256;
    assert h == (h / 256) * 256 + h % 256;
  }

  /** The first byte on the wire is the most significant one. */
  lemma WireOrder(n: nat, b: seq<byte>)
    requires n < 4_294_967_296 && |b| == 4
    ensures var value := b[0] as int * 16_777_216 + b[1] as int * 65_536 + b[2] as int * 256 + b[3] as int;
            && FromBigEndian(b) == value
            && (BigEndian(n) == b <==> value == n)
  {
    var c := BigEndian(n);
    BigEndianRoundTrip(n);
    if FromBigEndian(b) == FromBigEndian(c) { FourDigits(b, c); }
  }

  lemma FourDigits(b: seq<byte>, c: seq<byte>)
    requires |b| == 4 && |c| == 4 && FromBigEndian(b) == FromBigEndian(c)
    ensures b == c
  {
    var x := b[0] as int * 65_536 + b[1] as int * 256 + b[2] as int;
    var y := c[0] as int * 65_536 + c[1] as int * 256 + c[2] as int;
    assert x * 256 + b[3] as int == y * 256 + c[3] as int;
    assert x == y;
  }

  // The prefix is the length truncated to 32 bits.
  function Encode(payload: seq<byte>): seq<byte> { BigEndian(|payload| % U32) + payload }

  function EncodeAll(ps: seq<seq<byte>>): seq<byte> {
    if ps == [] then [] else Encode(ps[0]) + EncodeAll(ps[1..])
  }

  datatype Parsed = Need | Bad | Got(payload: seq<byte>, rest: seq<byte>)

  // What a fully buffered stream starts with.
  function Parse(t: seq<byte>): Parsed {
    if |t| < 4 then Need else
      var len := FromBigEndian(t[..4]);
      if len > MAX_FRAME then Bad
      else if |t| < 4 + len then Need
      else Got(t[4..4 + len], t[4 + len..])
  }

  // ---------------------------------------------------------------------
  // The socket and one receive call

  // One `read`: at most READ_LIMIT bytes; a closed stream stays closed, and a
  // script that ran dry answers that no data arrived in time.
  function Read(script: seq<ReadEvent>): (r: (Reading, seq<ReadEvent>))
    ensures r.0.Bytes? ==> r.0.bytes != [] && Weight(r.1) < Weight(script)
  {
    if script == [] then (ReadError(Io("timed out")), script)
    else if script[0].Fault? then (ReadError(Io(script[0].detail)), script[1..])
    else
      var b := script[0].bytes;
      if b == [] then (ReadError(Closed), script)
      else if |b| <= READ_LIMIT then (Bytes(b), script[1..])
      else (Bytes(b[..READ_LIMIT]), [Data(b[READ_LIMIT..])] + script[1..])
  }

  // Unread input.
  function Weight(script: seq<ReadEvent>): nat {
    if script == [] then 0 else (if script[0].Data? then |script[0].bytes| else 0) + 1 + Weight(script[1..])
  }

  function Receive(buf: seq<byte>, script: seq<ReadEvent>): (Outcome, seq<byte>, seq<ReadEvent>)
    decreases Weight(script)
  {
    match Parse(buf)
    case Got(payload, rest) => (Frame(payload), rest, script)
    case Bad => (Failure(OutOfRange), buf, script)
    case Need =>
      var (reading, script') := Read(script);
      if reading.ReadError? then (Failure(reading.error), buf, script')
      else if reading.bytes == [] then (NoFrame, buf, script')
      else Receive(buf + reading.bytes, script')
  }

  class TcpTunnel {
    var incoming: seq<ReadEvent>  // the socket: what its reads will return
    var sent: seq<byte>           // the socket: what was written to it
    var rxBuf: seq<byte>

    constructor (script: seq<ReadEvent>)
      ensures incoming == script && sent == [] && rxBuf == []
    {
      incoming, sent, rxBuf := script, [], [];
    }

    method WriteFrame(payload: seq<byte>)
      modifies this`sent
      ensures sent == old(sent) + Encode(payload)
    {
      var header := BigEndian(|payload| % U32);
      sent := sent + header;
      sent := sent + payload;
      assert old(sent) + header + payload == old(sent) + (header + payload);
    }

    method ReadIntoBuf() returns (r: Reading)
      modifies this`incoming, this`rxBuf
      ensures (r, incoming) == Read(old(incoming))
      ensures rxBuf == if r.Bytes? then old(rxBuf) + r.bytes else old(rxBuf)
    {
      var (reading, rest) := Read(incoming);
      incoming := rest;
      if reading.Bytes? { rxBuf := rxBuf + reading.bytes; }
      r := reading;
    }

    method RecvFrame() returns (r: Outcome)
      modifies this`incoming, this`rxBuf
      ensures (r, rxBuf, incoming) == Receive(old(rxBuf), old(incoming))
    {
      while true
        invariant Receive(rxBuf, incoming) == Receive(old(rxBuf), old(incoming))
        decreases Weight(incoming)
      {
        if |rxBuf| >= 4 {
          var len := FromBigEndian(rxBuf[..4]);
          if len > MAX_FRAME { return Failure(OutOfRange); }
          if |rxBuf| >= 4 + len {
            var payload := rxBuf[4..4 + len];
            rxBuf := rxBuf[4 + len..];
            return Frame(payload);
          }
        }
        var reading := ReadIntoBuf();
        if reading.ReadError? { return Failure(reading.error); }
        if reading.bytes == [] { return NoFrame; }
      }
    }
  }

  // ---------------------------------------------------------------------
  // One call against the whole stream

  // All bytes the script will still deliver.
  function Stream(script: seq<ReadEvent>): seq<byte> {
    if script == [] then []
    else if script[0].Fault? then Stream(script[1..])
    else if script[0].bytes == [] then []
    else script[0].bytes + Stream(script[1..])
  }

  // Read errors ahead of the end of the stream.
  function Faults(script: seq<ReadEvent>): nat {
    if script == [] then 0
    else if script[0].Fault? then 1 + Faults(script[1..])
    else if script[0].bytes == [] then 0
    else Faults(script[1..])
  }

  lemma ReadStream(script: seq<ReadEvent>)
    ensures var (r, s) := Read(script);
            && (r.Bytes? ==> r.bytes + Stream(s) == Stream(script) && Faults(s) == Faults(script))
            && (r.ReadError? ==> Stream(s) == Stream(script)
                                 && (Faults(s) < Faults(script) || (s == script && Stream(script) == []))
                                 && r.error != OutOfRange)
  {
    if script != [] && script[0].Data? && |script[0].bytes| > READ_LIMIT {
      var b := script[0].bytes;
      assert b == b[..READ_LIMIT] + b[READ_LIMIT..];
      assert ([Data(b[READ_LIMIT..])] + script[1..])[1..] == script[1..];
      assert b + Stream(script[1..]) == b[..READ_LIMIT] + (b[READ_LIMIT..] + Stream(script[1..]));
    }
  }

  lemma ParseGrows(t: seq<byte>, more: seq<byte>)
    ensures Parse(t).Bad? ==> Parse(t + more).Bad?
    ensures Parse(t).Got? ==> Parse(t + more) == Got(Parse(t).payload, Parse(t).rest + more)
  {
    if |t| >= 4 {
      assert (t + more)[..4] == t[..4];
      var len := FromBigEndian(t[..4]);
      if |t| >= 4 + len {
        assert (t + more)[4..4 + len] == t[4..4 + len];
        assert (t + more)[4 + len..] == t[4 + len..] + more;
      }
    }
  }

  /** A receive call does to the whole stream, buffered and unread, what one parse of
      it would do: it takes exactly one frame off, or leaves every byte in place. */
  lemma {:induction false} ReceiveRefinesParse(buf: seq<byte>, script: seq<ReadEvent>)
    ensures var (out, buf', script') := Receive(buf, script);
            var before, after := buf + Stream(script), buf' + Stream(script');
            && out != NoFrame
            && (out.Frame? ==> Parse(before) == Got(out.payload, after) && Faults(script') == Faults(script))
            && (out.Failure? ==> after == before)
            && (out == Failure(OutOfRange) ==> Parse(before) == Bad)
            && (out.Failure? && out.error != OutOfRange ==> Faults(script') < Faults(script) || Parse(before) == Need)
    decreases Weight(script)
  {
    ParseGrows(buf, Stream(script));
    if Parse(buf) == Need {
      ReadStream(script);
      var (reading, rest) := Read(script);
      if reading.Bytes? {
        assert buf + Stream(script) == buf + reading.bytes + Stream(rest);
        ReceiveRefinesParse(buf + reading.bytes, rest);
      } else if Stream(script) == [] {
        assert buf + Stream(script) == buf;
      }
    }
  }

  /** A frame survives the wire exactly when its payload fits the receiver's limit. */
  lemma FrameSurvivesIff(payload: seq<byte>, rest: seq<byte>)
    ensures Parse(Encode(payload) + rest) == Got(payload, rest) <==> |payload| <= 89_600
  {
    var t := Encode(payload) + rest;
    BigEndianRoundTrip(|payload| % U32);
    assert t[..4] == BigEndian(|payload| % U32);
    if |payload| <= MAX_FRAME {
      assert t[4..4 + |payload|] == payload;
      assert t[4 + |payload|..] == rest;
    }
  }

  /** An oversized prefix at the head of the stream is never passed: every later call fails
      the same way and consumes nothing, whatever arrives. */
  lemma OversizedBlocksForEver(buf: seq<byte>, script: seq<ReadEvent>, later: seq<ReadEvent>)
    requires Receive(buf, script).0 == Failure(OutOfRange)
    ensures Receive(Receive(buf, script).1, later) == (Failure(OutOfRange), Receive(buf, script).1, later)
    decreases Weight(script)
  {
    if Parse(buf) == Need {
      ReadStream(script);
      var (reading, rest) := Read(script);
      OversizedBlocksForEver(buf + reading.bytes, rest, later);
    }
  }

  // ---------------------------------------------------------------------
  // Successive calls

  function ReceiveMany(buf: seq<byte>, script: seq<ReadEvent>, calls: nat): seq<Outcome>
    decreases calls
  {
    if calls == 0 then [] else
      var (out, buf', script') := Receive(buf, script);
      [out] + ReceiveMany(buf', script', calls - 1)
  }

  function Delivered(outs: seq<Outcome>): seq<seq<byte>> {
    if outs == [] then []
    else (if outs[0].Frame? then [outs[0].payload] else []) + Delivered(outs[1..])
  }

  // The frames at the head of a stream, taken off one by one as far as they go.
  function FramesOf(t: seq<byte>): seq<seq<byte>>
    decreases |t|
  {
    match Parse(t)
    case Got(payload, rest) => [payload] + FramesOf(rest)
    case _ => []
  }

  lemma OneCall(buf: seq<byte>, script: seq<ReadEvent>)
    ensures var (out, buf', script') := Receive(buf, script);
            var before, after := FramesOf(buf + Stream(script)), FramesOf(buf' + Stream(script'));
            && (out.Frame? ==> before == [out.payload] + after && Faults(script') == Faults(script))
            && (!out.Frame? ==> before == after && (Faults(script') < Faults(script) || before == []))
  {
    ReceiveRefinesParse(buf, script);
  }

  lemma DeliveredStep(out: Outcome, outs: seq<Outcome>)
    ensures Delivered([out] + outs) == (if out.Frame? then [out.payload] else []) + Delivered(outs)
  {
    assert ([out] + outs)[1..] == outs;
  }

  /** For any bytes at all, whatever way they are cut into reads and with read errors in between,
      n calls return the first frames of the stream in order and nothing else, and all of them
      once n reaches the number of frames plus read errors. */
  lemma {:induction false} AnyStreamDelivered(buf: seq<byte>, script: seq<ReadEvent>, calls: nat)
    ensures Delivered(ReceiveMany(buf, script, calls)) <= FramesOf(buf + Stream(script))
    ensures calls >= |FramesOf(buf + Stream(script))| + Faults(script) ==>
              Delivered(ReceiveMany(buf, script, calls)) == FramesOf(buf + Stream(script))
    decreases calls
  {
    if calls > 0 {
      var (out, buf', script') := Receive(buf, script);
      OneCall(buf, script);
      DeliveredStep(out, ReceiveMany(buf', script', calls - 1));
      AnyStreamDelivered(buf', script', calls - 1);
      if out.Frame? {
        PrefixStep(out.payload, FramesOf(buf' + Stream(script')), Delivered(ReceiveMany(buf', script', calls - 1)));
      }
    }
  }

  lemma PrefixStep(first: seq<byte>, rest: seq<seq<byte>>, got: seq<seq<byte>>)
    requires got <= rest
    ensures [first] + got <= [first] + rest
  {
  }

  ghost predicate AllFit(ps: seq<seq<byte>>) { forall i | 0 <= i < |ps| :: |ps[i]| <= MAX_FRAME }

  lemma {:induction false} FramesOfEncoded(ps: seq<seq<byte>>)
    requires AllFit(ps)
    ensures FramesOf(EncodeAll(ps)) == ps
    decreases |ps|
  {
    if ps != [] {
      FrameSurvivesIff(ps[0], EncodeAll(ps[1..]));
      FramesOfEncoded(ps[1..]);
    }
  }

  /** So the frames a writer sent are delivered: exactly its payloads, in order. */
  lemma FramesDelivered(ps: seq<seq<byte>>, buf: seq<byte>, script: seq<ReadEvent>, calls: nat)
    requires AllFit(ps) && buf + Stream(script) == EncodeAll(ps)
    ensures Delivered(ReceiveMany(buf, script, calls)) <= ps
    ensures calls >= |ps| + Faults(script) ==> Delivered(ReceiveMany(buf, script, calls)) == ps
  {
    FramesOfEncoded(ps);
    AnyStreamDelivered(buf, script, calls);
  }

  /** Writing one more frame extends the stream by its encoding, so a writer's output
      is the encoding of its frames. */
  lemma {:induction false} EncodeAllSnoc(ps: seq<seq<byte>>, payload: seq<byte>)
    ensures EncodeAll(ps + [payload]) == EncodeAll(ps) + Encode(payload)
  {
    if ps == [] {
      assert [payload][1..] == [];
      assert ps + [payload] == [payload];
    } else {
      assert (ps + [payload])[1..] == ps[1..] + [payload];
      EncodeAllSnoc(ps[1..], payload);
    }
  }
}
