/** Stream reassembly and resynchronisation: `process_frame_buffer` and the append step of
    `handle_udp_data` (src/common/lumen_protocol.cpp). */
module FrameBuffer {
  import opened Pieces
  import opened Wire
  import opened Codec

  // ---------------------------------------------------------------- one turn of the loop

  /** A stretch of consumed input and the reason it was consumed. */
  datatype Segment =
    | Frame(packet: Packet)     // delivered
    | Damaged(bytes: Bytes)     // complete frame that failed its checks
    | Noise(bytes: Bytes)       // bytes before the next start marker
    | Flushed(bytes: Bytes)     // whole buffer dropped

  function SegmentBytes(s: Segment): Bytes {
    match s
    case Frame(p) => PacketBytes(p)
    case Damaged(b) => b
    case Noise(b) => b
    case Flushed(b) => b
  }

  datatype Turn = Consume(segment: Segment, rest: Bytes) | Wait

  /** The first start marker at or after `i`, or the length of the buffer. */
  function FindStx(buf: Bytes, i: nat): (k: nat)
    requires i <= |buf|
    ensures i <= k <= |buf| && (k < |buf| ==> buf[k] == STX)
    ensures forall j :: i <= j < k ==> buf[j] != STX
    decreases |buf| - i
  {
    if i == |buf| || buf[i] == STX then i else FindStx(buf, i + 1)
  }

  function TakeTurn(buf: Bytes): Turn
    requires buf != []
  {
    match ParsePacket(buf)
    case Some(p) =>
      ParseSound(buf);
      Consume(Frame(p), buf[TotalSize(p)..])
    case None =>
      match ParseHeader(buf)
      case Some(h) =>
        var n := DeclaredSize(h);
        if |buf| >= n then Consume(Damaged(buf[..n]), buf[n..]) else Wait
      case None =>
        var n := FindStx(buf, 1);
        if n < |buf| then Consume(Noise(buf[..n]), buf[n..])
        else if |buf| > MAX_FRAME_BUFFER_SIZE / 2 then Consume(Flushed(buf), [])
        else Wait
  }

  /** A turn that does not stop the loop splits the buffer and shrinks it. */
  lemma TurnConserves(buf: Bytes)
    requires buf != [] && TakeTurn(buf).Consume?
    ensures var t := TakeTurn(buf);
            SegmentBytes(t.segment) + t.rest == buf && |t.rest| < |buf|
  {
    if ParsePacket(buf).Some? {
      ParseSound(buf);
    }
  }

  // ---------------------------------------------------------------- the loop

  datatype Parse = Parse(segments: seq<Segment>, residue: Bytes)

  function Loop(buf: Bytes): Parse
    decreases |buf|
  {
    if buf == [] then Parse([], []) else
    var t := TakeTurn(buf);
    if t.Wait? then Parse([], buf) else
    TurnConserves(buf);
    var r := Loop(t.rest);
    Parse([t.segment] + r.segments, r.residue)
  }

  /** The size limit on what the loop leaves. */
  function Limit(r: Parse): Parse {
    if |r.residue| > MAX_FRAME_BUFFER_SIZE then Parse(r.segments + [Flushed(r.residue)], []) else r
  }

  function Process(buf: Bytes): Parse {
    Limit(Loop(buf))
  }

  /** The limit does not touch what came before. */
  lemma LimitAfter(before: seq<Segment>, r: Parse)
    ensures Limit(Parse(before + r.segments, r.residue)) == Parse(before + Limit(r).segments, Limit(r).residue)
  {
    Associate(before, r.segments, [Flushed(r.residue)]);
  }

  function Flatten(segments: seq<Segment>): Bytes {
    if segments == [] then [] else SegmentBytes(segments[0]) + Flatten(segments[1..])
  }

  function DeliveredBy(s: Segment): Option<Packet> {
    if s.Frame? then Some(s.packet) else None
  }

  function OptionSeq<T>(o: Option<T>): seq<T> {
    if o.Some? then [o.value] else []
  }

  function Delivered(segments: seq<Segment>): seq<Packet> {
    if segments == [] then [] else OptionSeq(DeliveredBy(segments[0])) + Delivered(segments[1..])
  }

  lemma {:induction false} FlattenConcat(a: seq<Segment>, b: seq<Segment>)
    ensures Flatten(a + b) == Flatten(a) + Flatten(b)
  {
    if a == [] {
      assert a + b == b;
    } else {
      assert (a + b)[1..] == a[1..] + b;
      FlattenConcat(a[1..], b);
      Associate(SegmentBytes(a[0]), Flatten(a[1..]), Flatten(b));
    }
  }

  lemma {:induction false} DeliveredConcat(a: seq<Segment>, b: seq<Segment>)
    ensures Delivered(a + b) == Delivered(a) + Delivered(b)
  {
    if a == [] {
      assert a + b == b;
    } else {
      assert (a + b)[1..] == a[1..] + b;
      DeliveredConcat(a[1..], b);
      Associate(OptionSeq(DeliveredBy(a[0])), Delivered(a[1..]), Delivered(b));
    }
  }

  // ---------------------------------------------------------------- conservation

  lemma {:induction false} LoopConserves(buf: Bytes)
    ensures Flatten(Loop(buf).segments) + Loop(buf).residue == buf
    decreases |buf|
  {
    if buf != [] && TakeTurn(buf).Consume? {
      var t := TakeTurn(buf);
      TurnConserves(buf);
      LoopConserves(t.rest);
      assert Loop(buf).segments[1..] == Loop(t.rest).segments;
    }
  }

  /** Every input byte is delivered in a frame, dropped in a named segment, or kept. */
  lemma ProcessConserves(buf: Bytes)
    ensures Flatten(Process(buf).segments) + Process(buf).residue == buf
  {
    LoopConserves(buf);
    var r := Loop(buf);
    FlattenConcat(r.segments, [Flushed(r.residue)]);
    assert Flatten([Flushed(r.residue)]) == r.residue;
  }

  predicate NoLaterStx(b: Bytes, n: nat)
    requires n <= |b|
  {
    forall i :: 1 <= i < n ==> b[i] != STX
  }

  /** Why the loop consumes a segment at the front of what is left of the input: an intact
      frame is delivered, and bytes are dropped only where the input begins with a complete
      frame that fails its checks, with no parsable header, or with an incomplete frame too
      long to keep. */
  predicate Cause(s: Segment, input: Bytes) {
    match s
    case Frame(p) => ParsePacket(input) == Some(p)
    case Damaged(b) =>
      ParsePacket(input).None? && ParseHeader(input).Some? && |b| == DeclaredSize(ParseHeader(input).value) <= |input|
    case Noise(b) => ParseHeader(input).None? && 0 < |b| < |input| && input[|b|] == STX && NoLaterStx(input, |b|)
    case Flushed(b) =>
      && b == input
      && if ParseHeader(input).None? then |input| > 2048 && NoLaterStx(input, |input|)
         else 4096 < |input| < DeclaredSize(ParseHeader(input).value)
  }

  /** The segments make up the input before the residue, each with its cause where it stands. */
  ghost predicate Explained(segments: seq<Segment>, input: Bytes, residue: Bytes)
    decreases |segments|
  {
    if segments == [] then input == residue
    else
      var b := SegmentBytes(segments[0]);
      b <= input && Cause(segments[0], input) && Explained(segments[1..], input[|b|..], residue)
  }

  /** Where the input begins with an intact frame, nothing but its delivery has a cause. */
  lemma IntactIsDelivered(p: Packet, rest: Bytes, s: Segment)
    requires Sendable(p) && Cause(s, PacketBytes(p) + rest)
    ensures s == Frame(p)
  {
    SendableRoundTrip(p, rest);
    EncodedHeader(p, rest);
  }

  lemma TurnHasCause(buf: Bytes)
    requires buf != [] && TakeTurn(buf).Consume?
    ensures var t := TakeTurn(buf);
            SegmentBytes(t.segment) <= buf && buf[|SegmentBytes(t.segment)|..] == t.rest && Cause(t.segment, buf)
  {
    TurnConserves(buf);
    var t := TakeTurn(buf);
    assert buf == SegmentBytes(t.segment) + t.rest;
  }

  lemma {:induction false} LoopExplained(buf: Bytes)
    ensures Explained(Loop(buf).segments, buf, Loop(buf).residue)
    decreases |buf|
  {
    if buf != [] && TakeTurn(buf).Consume? {
      TurnConserves(buf);
      TurnHasCause(buf);
      LoopExplained(TakeTurn(buf).rest);
      assert Loop(buf).segments[1..] == Loop(TakeTurn(buf).rest).segments;
    }
  }

  lemma {:induction false} ExplainedSnoc(segments: seq<Segment>, input: Bytes, residue: Bytes)
    requires Explained(segments, input, residue) && Cause(Flushed(residue), residue)
    ensures Explained(segments + [Flushed(residue)], input, [])
    decreases |segments|
  {
    var all := segments + [Flushed(residue)];
    if segments == [] {
      assert all[1..] == [] && residue[|residue|..] == [];
    } else {
      assert all[1..] == segments[1..] + [Flushed(residue)];
      ExplainedSnoc(segments[1..], input[|SegmentBytes(segments[0])|..], residue);
    }
  }

  // ---------------------------------------------------------------- the residue

  /** What the loop can leave behind: nothing, a frame still incomplete, or a short stretch
      without a parsable header and without a later start marker. */
  predicate Quiescent(buf: Bytes) {
    || buf == []
    || (&& ParseHeader(buf).Some? && |buf| < DeclaredSize(ParseHeader(buf).value)
        && |buf| <= 4096)
    || (&& ParseHeader(buf).None? && |buf| <= 2048
        && forall i :: 1 <= i < |buf| ==> buf[i] != STX)
  }

  lemma {:induction false} LoopStops(buf: Bytes)
    ensures var r := Loop(buf).residue; r != [] ==> TakeTurn(r).Wait?
    decreases |buf|
  {
    if buf != [] && TakeTurn(buf).Consume? {
      TurnConserves(buf);
      LoopStops(TakeTurn(buf).rest);
    }
  }

  lemma OverlongHasCause(r: Bytes)
    requires |r| > MAX_FRAME_BUFFER_SIZE && TakeTurn(r).Wait?
    ensures Cause(Flushed(r), r)
  {
  }

  /** Nothing is dropped without cause: every segment of every input has its cause at the
      place where it stands. */
  lemma ProcessExplained(buf: Bytes)
    ensures Explained(Process(buf).segments, buf, Process(buf).residue)
  {
    LoopExplained(buf);
    LoopStops(buf);
    var r := Loop(buf);
    if |r.residue| > MAX_FRAME_BUFFER_SIZE {
      OverlongHasCause(r.residue);
      ExplainedSnoc(r.segments, buf, r.residue);
    }
  }

  lemma ProcessQuiesces(buf: Bytes)
    ensures Quiescent(Process(buf).residue)
  {
    LoopStops(buf);
    var r := Loop(buf).residue;
    if r != [] && ParsePacket(r).None? && ParseHeader(r).None? {
      var n := FindStx(r, 1);
    }
  }

  /** Exactly the possible residues are left unchanged when processed again. */
  lemma QuiescentIff(buf: Bytes)
    ensures Quiescent(buf) <==> Process(buf) == Parse([], buf)
  {
  }

  // ---------------------------------------------------------------- the receiver

  /** What `handle_udp_data` does to the buffer of the sending endpoint. */
  function Receive(buf: Bytes, data: Bytes): Parse {
    if data == [] || data[0] != STX then Parse([], buf) else Process(buf + data)
  }

  /** One turn of the loop body. */
  method Advance(buffer: Bytes) returns (packet: Option<Packet>, rest: Bytes, stop: bool)
    requires buffer != []
    ensures stop <==> TakeTurn(buffer).Wait?
    ensures stop ==> packet.None? && rest == buffer
    ensures !stop ==> packet == DeliveredBy(TakeTurn(buffer).segment) && rest == TakeTurn(buffer).rest
  {
    packet, rest, stop := ParsePacket(buffer), buffer, false;
    if packet.Some? {
      ParseSound(buffer);
      rest := buffer[TotalSize(packet.value)..];
      return;
    }
    var header := ParseHeader(buffer);
    if header.Some? {
      var expected := DeclaredSize(header.value);
      if |buffer| >= expected {
        rest := buffer[expected..];
      } else {
        stop := true;
      }
    } else {
      var next := 1;
      while next < |buffer| && buffer[next] != STX
        invariant 1 <= next <= |buffer|
        invariant FindStx(buffer, next) == FindStx(buffer, 1)
      {
        next := next + 1;
      }
      if next < |buffer| {
        rest := buffer[next..];
      } else if |buffer| > MAX_FRAME_BUFFER_SIZE / 2 {
        rest := [];
      } else {
        stop := true;
      }
    }
  }

  function Drained(buf: Bytes): (seq<Packet>, Bytes) {
    (Delivered(Loop(buf).segments), Loop(buf).residue)
  }

  lemma LoopTurn(buf: Bytes)
    requires buf != []
    ensures TakeTurn(buf).Wait? ==> Drained(buf) == ([], buf)
    ensures TakeTurn(buf).Consume? ==>
              var t := TakeTurn(buf);
              && |t.rest| < |buf|
              && Drained(buf) == (OptionSeq(DeliveredBy(t.segment)) + Drained(t.rest).0, Drained(t.rest).1)
  {
  }

  ghost predicate DrainsTo(buf: Bytes, delivered: seq<Packet>, residue: Bytes) {
    (delivered, residue) == Drained(buf)
  }

  method AdvanceLoop(buffer: Bytes, ghost toCome: seq<Packet>, ghost residue: Bytes)
    returns (packet: Option<Packet>, rest: Bytes, stop: bool, ghost after: seq<Packet>)
    requires buffer != [] && DrainsTo(buffer, toCome, residue)
    ensures toCome == OptionSeq(packet) + after
    ensures if stop then after == [] && rest == residue == buffer
            else |rest| < |buffer| && DrainsTo(rest, after, residue)
    ensures rest == [] ==> after == [] && residue == []
  {
    LoopTurn(buffer);
    packet, rest, stop := Advance(buffer);
    after := if stop then [] else Drained(rest).0;
  }

  lemma DrainsEmpty(delivered: seq<Packet>, residue: Bytes)
    requires DrainsTo([], delivered, residue)
    ensures delivered == [] && residue == []
  {
  }

  /** As many turns as the buffer allows. */
  method Drain(input: Bytes) returns (delivered: seq<Packet>, buffer: Bytes)
    ensures DrainsTo(input, delivered, buffer)
  {
    delivered, buffer := [], input;
    ghost var all, toCome, residue := Drained(input).0, Drained(input).0, Drained(input).1;
    if input == [] {
      DrainsEmpty(all, residue);
    }
    while buffer != []
      invariant DrainsTo(buffer, toCome, residue)
      invariant delivered + toCome == all
      invariant buffer == [] ==> toCome == [] && residue == []
      decreases |buffer|
    {
      var packet, rest, stop;
      packet, rest, stop, toCome := AdvanceLoop(buffer, toCome, residue);
      Associate(delivered, OptionSeq(packet), toCome);
      delivered := delivered + OptionSeq(packet);
      if stop {
        break;
      }
      buffer := rest;
    }
    assert delivered + [] == delivered;
  }

  class Reassembler {
    var running: bool
    var frameBuffers: map<Endpoint, Bytes>

    constructor ()
      ensures !running && frameBuffers == map[]
    {
      running := false;
      frameBuffers := map[];
    }

    function BufferOf(endpoint: Endpoint): Bytes
      reads this
    {
      if endpoint in frameBuffers then frameBuffers[endpoint] else []
    }

    /** Hands over the packets in the order in which the source passes them on. */
    method ProcessFrameBuffer(endpoint: Endpoint) returns (delivered: seq<Packet>)
      modifies this`frameBuffers
      ensures endpoint !in old(frameBuffers) ==> delivered == [] && frameBuffers == old(frameBuffers)
      ensures endpoint in old(frameBuffers) ==>
                var r := Process(old(frameBuffers)[endpoint]);
                delivered == Delivered(r.segments) && frameBuffers == old(frameBuffers)[endpoint := r.residue]
    {
      delivered := [];
      if endpoint !in frameBuffers {
        return;
      }
      ghost var whole := Loop(frameBuffers[endpoint]);
      var buffer;
      delivered, buffer := Drain(frameBuffers[endpoint]);
      DeliveredConcat(whole.segments, [Flushed(whole.residue)]);
      if |buffer| > MAX_FRAME_BUFFER_SIZE {
        buffer := [];
      }
      frameBuffers := frameBuffers[endpoint := buffer];
    }

    /** Only datagrams that begin with a start marker reach the frame buffer. */
    method HandleUdpData(data: Bytes, endpoint: Endpoint) returns (delivered: seq<Packet>)
      modifies this`frameBuffers
      ensures running ==>
                var r := Receive(old(BufferOf(endpoint)), data);
                delivered == Delivered(r.segments) && BufferOf(endpoint) == r.residue
      ensures !running ==> delivered == [] && frameBuffers == old(frameBuffers)
      ensures forall e :: e != endpoint ==> (e in frameBuffers <==> e in old(frameBuffers))
      ensures forall e :: e != endpoint && e in frameBuffers ==> frameBuffers[e] == old(frameBuffers)[e]
    {
      delivered := [];
      if !running || data == [] {
        return;
      }
      if data[0] == STX {
        frameBuffers := frameBuffers[endpoint := BufferOf(endpoint) + data];
        delivered := ProcessFrameBuffer(endpoint);
      }
    }
  }
}
