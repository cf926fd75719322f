/** What the buffer loop makes of a stream of encoded packets: cut into datagrams anywhere,
    or damaged on the way. */
module Streams {
  import opened Pieces
  import opened Wire
  import opened Crc8
  import opened Codec
  import opened FrameBuffer

  // ---------------------------------------------------------------- streams of frames

  function Encodings(ps: seq<Packet>): (parts: seq<Bytes>)
    ensures |parts| == |ps| && forall i :: 0 <= i < |ps| ==> parts[i] == PacketBytes(ps[i])
  {
    seq(|ps|, i requires 0 <= i < |ps| => PacketBytes(ps[i]))
  }

  function Stream(ps: seq<Packet>): Bytes {
    Join(Encodings(ps))
  }

  lemma EncodingsSlice(ps: seq<Packet>, i: nat, j: nat)
    requires i <= j <= |ps|
    ensures Encodings(ps)[i..j] == Encodings(ps[i..j])
  {
  }

  lemma StreamCons(ps: seq<Packet>)
    requires ps != []
    ensures Stream(ps) == PacketBytes(ps[0]) + Stream(ps[1..])
  {
    assert Encodings(ps)[1..] == Encodings(ps[1..]);
  }

  function Frames(ps: seq<Packet>): (r: seq<Segment>)
    ensures |r| == |ps|
  {
    seq(|ps|, i requires 0 <= i < |ps| => Frame(ps[i]))
  }

  predicate AllSendable(ps: seq<Packet>) {
    forall p :: p in ps ==> Sendable(p)
  }

  lemma LoopFrame(p: Packet, rest: Bytes)
    requires Sendable(p)
    ensures Loop(PacketBytes(p) + rest) == Parse([Frame(p)] + Loop(rest).segments, Loop(rest).residue)
  {
    SendableRoundTrip(p, rest);
    assert (PacketBytes(p) + rest)[TotalSize(p)..] == rest;
  }

  lemma FramesCons(ps: seq<Packet>, more: seq<Segment>)
    requires ps != []
    ensures [Frame(ps[0])] + (Frames(ps[1..]) + more) == Frames(ps) + more
  {
  }

  lemma {:induction false} LoopFrames(ps: seq<Packet>, rest: Bytes)
    requires AllSendable(ps)
    ensures Loop(Stream(ps) + rest) == Parse(Frames(ps) + Loop(rest).segments, Loop(rest).residue)
  {
    if ps == [] {
      assert Stream(ps) + rest == rest;
      assert Frames(ps) + Loop(rest).segments == Loop(rest).segments;
    } else {
      StreamCons(ps);
      Associate(PacketBytes(ps[0]), Stream(ps[1..]), rest);
      LoopFrame(ps[0], Stream(ps[1..]) + rest);
      LoopFrames(ps[1..], rest);
      FramesCons(ps, Loop(rest).segments);
    }
  }

  lemma ProcessFrames(ps: seq<Packet>, rest: Bytes)
    requires AllSendable(ps)
    ensures Process(Stream(ps) + rest) == Parse(Frames(ps) + Process(rest).segments, Process(rest).residue)
  {
    LoopFrames(ps, rest);
    LimitAfter(Frames(ps), Loop(rest));
  }

  lemma {:induction false} DeliveredFrames(ps: seq<Packet>)
    ensures Delivered(Frames(ps)) == ps
  {
    if ps != [] {
      assert Frames(ps)[1..] == Frames(ps[1..]);
      DeliveredFrames(ps[1..]);
    }
  }

  // ---------------------------------------------------------------- bytes lost

  /** How many bytes were dropped rather than delivered. */
  function Dropped(segments: seq<Segment>): nat {
    if segments == [] then 0
    else (if segments[0].Frame? then 0 else |SegmentBytes(segments[0])|) + Dropped(segments[1..])
  }

  lemma {:induction false} DroppedConcat(a: seq<Segment>, b: seq<Segment>)
    ensures Dropped(a + b) == Dropped(a) + Dropped(b)
  {
    if a == [] {
      assert a + b == b;
    } else {
      assert (a + b)[1..] == a[1..] + b;
      DroppedConcat(a[1..], b);
    }
  }

  lemma {:induction false} SizesAddUp(segments: seq<Segment>)
    ensures |Flatten(segments)| == |Stream(Delivered(segments))| + Dropped(segments)
  {
    if segments != [] {
      SizesAddUp(segments[1..]);
      if segments[0].Frame? {
        StreamCons(Delivered(segments));
        assert Delivered(segments)[1..] == Delivered(segments[1..]);
      } else {
        assert Delivered(segments) == Delivered(segments[1..]);
      }
    }
  }

  // ---------------------------------------------------------------- an unfinished frame

  /** A beginning of a frame that the loop leaves alone until the rest arrives. */
  predicate Safe(tail: Bytes) {
    || tail == []
    || (|tail| < HEADER_SIZE && forall i :: 1 <= i < |tail| ==> tail[i] != STX)
    || HEADER_SIZE <= |tail| <= 4096
  }

  lemma HeaderPrefix(a: Bytes, b: Bytes)
    requires HEADER_SIZE <= |a| && HEADER_SIZE <= |b| && a[..HEADER_SIZE] == b[..HEADER_SIZE]
    ensures ParseHeader(a) == ParseHeader(b)
  {
    var h := a[..HEADER_SIZE];
    assert forall i :: 0 <= i < HEADER_SIZE ==> a[i] == h[i] && b[i] == h[i];
  }

  lemma TailHeader(p: Packet, m: nat)
    requires Sendable(p) && HEADER_SIZE <= m < TotalSize(p)
    ensures ParseHeader(PacketBytes(p)[..m]) == Some(p.header) && ParsePacket(PacketBytes(p)[..m]).None?
  {
    var tail := PacketBytes(p)[..m];
    EncodedHeader(p, []);
    assert PacketBytes(p) + [] == PacketBytes(p);
    assert tail[..HEADER_SIZE] == PacketBytes(p)[..HEADER_SIZE];
    HeaderPrefix(tail, PacketBytes(p));
  }

  lemma TailSafe(p: Packet, m: nat)
    requires Sendable(p) && m < TotalSize(p) && Safe(PacketBytes(p)[..m])
    ensures Process(PacketBytes(p)[..m]) == Parse([], PacketBytes(p)[..m])
  {
    var tail := PacketBytes(p)[..m];
    if m >= HEADER_SIZE {
      TailHeader(p, m);
    }
    QuiescentIff(tail);
  }

  lemma TailUnsafe(p: Packet, m: nat)
    requires Sendable(p) && m < TotalSize(p) && !Safe(PacketBytes(p)[..m])
    ensures Dropped(Process(PacketBytes(p)[..m]).segments) > 0
  {
    var tail := PacketBytes(p)[..m];
    if m < HEADER_SIZE {
      var n := FindStx(tail, 1);
      assert n < |tail|;
      var rest := Loop(tail[n..]);
      assert Loop(tail).segments == [Noise(tail[..n])] + rest.segments;
      DroppedConcat([Noise(tail[..n])], rest.segments);
      DroppedConcat(Loop(tail).segments, [Flushed(rest.residue)]);
    } else {
      TailHeader(p, m);
      assert Loop(tail) == Parse([], tail);
      assert Process(tail).segments == [Flushed(tail)];
    }
  }

  // ---------------------------------------------------------------- datagrams

  /** Append and process with `f`, datagram after datagram. */
  function FeedWith(f: Bytes -> Parse, buf: Bytes, chunks: seq<Bytes>): Parse
    decreases |chunks|
  {
    if chunks == [] then Parse([], buf)
    else Then(f(buf + chunks[0]), FeedWith(f, f(buf + chunks[0]).residue, chunks[1..]))
  }

  function FeedAll(buf: Bytes, chunks: seq<Bytes>): Parse {
    FeedWith(Process, buf, chunks)
  }

  function Then(first: Parse, rest: Parse): Parse {
    Parse(first.segments + rest.segments, rest.residue)
  }

  /** What is pending of an unfinished frame after `m` bytes of the stream. */
  function Unfinished(ps: seq<Packet>, m: nat): Bytes {
    Pending(Encodings(ps), m)
  }

  function Finished(ps: seq<Packet>, m: nat): (k: nat)
    ensures k <= |ps|
  {
    Complete(Encodings(ps), m)
  }

  /** Every cut after offset `m` leaves a beginning that the loop leaves alone. */
  predicate CutsSafe(ps: seq<Packet>, m: nat, chunks: seq<Bytes>)
    decreases |chunks|
  {
    chunks == [] || (Safe(Unfinished(ps, m + |chunks[0]|)) && CutsSafe(ps, m + |chunks[0]|, chunks[1..]))
  }

  /** What the loop makes of an unfinished frame. */
  lemma TailFate(ps: seq<Packet>, m: nat)
    requires AllSendable(ps) && m <= |Stream(ps)|
    ensures Safe(Unfinished(ps, m)) ==> Process(Unfinished(ps, m)) == Parse([], Unfinished(ps, m))
    ensures !Safe(Unfinished(ps, m)) ==> Dropped(Process(Unfinished(ps, m)).segments) > 0
  {
    var k, tail := Finished(ps, m), Unfinished(ps, m);
    PendingIsPrefix(Encodings(ps), m);
    if k == |ps| {
      QuiescentIff([]);
    } else if Safe(tail) {
      TailSafe(ps[k], |tail|);
    } else {
      TailUnsafe(ps[k], |tail|);
    }
  }

  /** One datagram: the loop delivers the frames it completes, then meets what is pending. */
  lemma FeedOne(ps: seq<Packet>, m: nat, m': nat)
    requires AllSendable(ps) && m <= m' <= |Stream(ps)|
    ensures var k, k' := Finished(ps, m), Finished(ps, m');
            && k <= k'
            && Process(Unfinished(ps, m) + Stream(ps)[m..m'])
               == Then(Parse(Frames(ps[k..k']), []), Process(Unfinished(ps, m')))
  {
    var k, k' := Finished(ps, m), Finished(ps, m');
    Between(Encodings(ps), m, m');
    EncodingsSlice(ps, k, k');
    ProcessFrames(ps[k..k'], Unfinished(ps, m'));
  }

  lemma FramesMeet(ps: seq<Packet>, k: nat, k': nat)
    requires k <= k' <= |ps|
    ensures Frames(ps[k..k']) + Frames(ps[k'..]) == Frames(ps[k..])
  {
  }

  lemma FirstChunk(s: Bytes, m: nat, chunks: seq<Bytes>)
    requires m <= |s| && chunks != [] && Join(chunks) == s[m..]
    ensures m + |chunks[0]| <= |s|
    ensures chunks[0] == s[m..m + |chunks[0]|] && Join(chunks[1..]) == s[m + |chunks[0]|..]
  {
  }

  lemma ThenFate(first: Parse, frames: seq<Segment>, rest: Parse)
    requires first == Then(Parse(frames, []), rest)
    ensures rest.segments == [] ==> first == Parse(frames, rest.residue)
    ensures Dropped(first.segments) >= Dropped(rest.segments)
  {
    assert frames + [] == frames;
    DroppedConcat(frames, rest.segments);
  }

  /** What `f` makes of a datagram, by whether the cut after it is safe. */
  ghost predicate Fate(f: Bytes -> Parse, ps: seq<Packet>, m: nat, m': nat)
    requires m <= m' <= |Stream(ps)|
  {
    var first, tail := f(Unfinished(ps, m) + Stream(ps)[m..m']), Unfinished(ps, m');
    var k, k' := Finished(ps, m), Finished(ps, m');
    && k <= k'
    && (Safe(tail) ==> first == Parse(Frames(ps[k..k']), tail))
    && (!Safe(tail) ==> Dropped(first.segments) > 0)
  }

  ghost predicate Fates(f: Bytes -> Parse, ps: seq<Packet>) {
    forall m, m' :: 0 <= m <= m' <= |Stream(ps)| ==> Fate(f, ps, m, m')
  }

  lemma FeedFate(ps: seq<Packet>, m: nat, m': nat)
    requires AllSendable(ps) && m <= m' <= |Stream(ps)|
    ensures Fate(Process, ps, m, m')
  {
    FeedOne(ps, m, m');
    TailFate(ps, m');
    ThenFate(Process(Unfinished(ps, m) + Stream(ps)[m..m']), Frames(ps[Finished(ps, m)..Finished(ps, m')]),
             Process(Unfinished(ps, m')));
  }

  lemma FeedFates(ps: seq<Packet>)
    requires AllSendable(ps)
    ensures Fates(Process, ps)
  {
    forall m, m' | 0 <= m <= m' <= |Stream(ps)| ensures Fate(Process, ps, m, m') {
      FeedFate(ps, m, m');
    }
  }

  lemma {:induction false} FeedSafe(f: Bytes -> Parse, ps: seq<Packet>, m: nat, chunks: seq<Bytes>)
    requires Fates(f, ps) && m <= |Stream(ps)| && Join(chunks) == Stream(ps)[m..] && CutsSafe(ps, m, chunks)
    ensures FeedWith(f, Unfinished(ps, m), chunks) == Parse(Frames(ps[Finished(ps, m)..]), [])
    decreases |chunks|
  {
    if chunks == [] {
      CompleteAll(Encodings(ps));
    } else {
      var m' := m + |chunks[0]|;
      FirstChunk(Stream(ps), m, chunks);
      assert Fate(f, ps, m, m');
      FeedSafe(f, ps, m', chunks[1..]);
      FramesMeet(ps, Finished(ps, m), Finished(ps, m'));
    }
  }

  lemma {:induction false} FeedUnsafe(f: Bytes -> Parse, ps: seq<Packet>, m: nat, chunks: seq<Bytes>)
    requires Fates(f, ps) && m <= |Stream(ps)| && Join(chunks) == Stream(ps)[m..] && !CutsSafe(ps, m, chunks)
    ensures Dropped(FeedWith(f, Unfinished(ps, m), chunks).segments) > 0
    decreases |chunks|
  {
    var m', first := m + |chunks[0]|, f(Unfinished(ps, m) + chunks[0]);
    FirstChunk(Stream(ps), m, chunks);
    assert Fate(f, ps, m, m');
    DroppedConcat(first.segments, FeedWith(f, first.residue, chunks[1..]).segments);
    if Safe(Unfinished(ps, m')) {
      FeedUnsafe(f, ps, m', chunks[1..]);
    }
  }

  lemma ThenConserves(first: Parse, rest: Parse, buf: Bytes, chunk: Bytes, more: Bytes)
    requires Flatten(first.segments) + first.residue == buf + chunk
    requires Flatten(rest.segments) + rest.residue == first.residue + more
    ensures Flatten(Then(first, rest).segments) + rest.residue == buf + (chunk + more)
  {
    FlattenConcat(first.segments, rest.segments);
    Associate(Flatten(first.segments), Flatten(rest.segments), rest.residue);
    Associate(Flatten(first.segments), first.residue, more);
    Associate(buf, chunk, more);
  }

  ghost predicate Conserving(f: Bytes -> Parse) {
    forall buf :: Flatten(f(buf).segments) + f(buf).residue == buf
  }

  lemma {:induction false} FeedConserves(f: Bytes -> Parse, buf: Bytes, chunks: seq<Bytes>)
    requires Conserving(f)
    ensures var r := FeedWith(f, buf, chunks); Flatten(r.segments) + r.residue == buf + Join(chunks)
    decreases |chunks|
  {
    if chunks != [] {
      var first := f(buf + chunks[0]);
      FeedConserves(f, first.residue, chunks[1..]);
      ThenConserves(first, FeedWith(f, first.residue, chunks[1..]), buf, chunks[0], Join(chunks[1..]));
    }
  }

  lemma ProcessIsConserving()
    ensures Conserving(Process)
  {
    forall buf ensures Flatten(Process(buf).segments) + Process(buf).residue == buf {
      ProcessConserves(buf);
    }
  }

  /** One-shot parsing of a stream of frames. */
  lemma WholeStream(ps: seq<Packet>)
    requires AllSendable(ps)
    ensures Process(Stream(ps)) == Parse(Frames(ps), []) && Delivered(Frames(ps)) == ps
  {
    ProcessFrames(ps, []);
    QuiescentIff([]);
    assert Stream(ps) + [] == Stream(ps) && Frames(ps) + [] == Frames(ps);
    DeliveredFrames(ps);
  }

  /** A stream of frames, cut anywhere into pieces that are appended and processed one by
      one, is delivered completely exactly when every cut is safe; and then nothing is left. */
  lemma IncrementalParsing(ps: seq<Packet>, chunks: seq<Bytes>)
    requires AllSendable(ps) && Join(chunks) == Stream(ps)
    ensures CutsSafe(ps, 0, chunks) <==> Delivered(FeedAll([], chunks).segments) == ps
    ensures CutsSafe(ps, 0, chunks) ==> FeedAll([], chunks) == Process(Stream(ps)) == Parse(Frames(ps), [])
  {
    assert Stream(ps)[0..] == Stream(ps) && ps[0..] == ps;
    assert Unfinished(ps, 0) == [] && Finished(ps, 0) == 0;
    WholeStream(ps);
    FeedFates(ps);
    if CutsSafe(ps, 0, chunks) {
      FeedSafe(Process, ps, 0, chunks);
    } else {
      FeedUnsafe(Process, ps, 0, chunks);
      ProcessIsConserving();
      FeedConserves(Process, [], chunks);
      SizesAddUp(FeedAll([], chunks).segments);
    }
  }

  /** A cut after two to nine bytes of a DATA frame is never safe: the type byte of DATA is
      the start marker. */
  lemma DataHeaderCut(p: Packet, m: nat)
    requires p.header.kind == DATA && 2 <= m < HEADER_SIZE
    ensures !Safe(PacketBytes(p)[..m])
  {
    assert PacketBytes(p)[..m][1] == HeaderBytes(p.header)[1] == STX;
  }

  // ---------------------------------------------------------------- the marker test

  /** The datagrams that `handle_udp_data` does not send down the plain-text path. */
  predicate Accepted(data: Bytes) {
    data == [] || data[0] == STX
  }

  function ReceiveAll(buf: Bytes, data: seq<Bytes>): Parse
    decreases |data|
  {
    if data == [] then Parse([], buf)
    else Then(Receive(buf, data[0]), ReceiveAll(Receive(buf, data[0]).residue, data[1..]))
  }

  function AcceptedSize(data: seq<Bytes>): nat {
    if data == [] then 0 else (if Accepted(data[0]) then |data[0]| else 0) + AcceptedSize(data[1..])
  }

  lemma {:induction false} RefusedShrinks(data: seq<Bytes>)
    ensures AcceptedSize(data) <= |Join(data)|
    ensures AcceptedSize(data) == |Join(data)| <==> forall d :: d in data ==> Accepted(d)
  {
    if data != [] {
      RefusedShrinks(data[1..]);
    }
  }

  lemma {:induction false} ReceiveIsFeed(buf: Bytes, data: seq<Bytes>)
    requires Quiescent(buf) && forall d :: d in data ==> Accepted(d)
    ensures ReceiveAll(buf, data) == FeedAll(buf, data)
    decreases |data|
  {
    if data != [] {
      assert Accepted(data[0]);
      if data[0] == [] {
        assert buf + data[0] == buf;
        QuiescentIff(buf);
      }
      assert Receive(buf, data[0]) == Process(buf + data[0]);
      ProcessQuiesces(buf + data[0]);
      ReceiveIsFeed(Receive(buf, data[0]).residue, data[1..]);
    }
  }

  lemma {:induction false} ReceiveSizes(buf: Bytes, data: seq<Bytes>)
    ensures var r := ReceiveAll(buf, data); |Flatten(r.segments)| + |r.residue| == |buf| + AcceptedSize(data)
    decreases |data|
  {
    if data != [] {
      var first := Receive(buf, data[0]);
      ProcessConserves(buf + data[0]);
      ReceiveSizes(first.residue, data[1..]);
      FlattenConcat(first.segments, ReceiveAll(first.residue, data[1..]).segments);
    }
  }

  /** Datagrams that together carry a stream of frames deliver it completely exactly when
      each begins with a start marker and every cut between them is safe. */
  lemma DatagramParsing(ps: seq<Packet>, data: seq<Bytes>)
    requires AllSendable(ps) && Join(data) == Stream(ps)
    ensures Delivered(ReceiveAll([], data).segments) == ps
            <==> (forall d :: d in data ==> Accepted(d)) && CutsSafe(ps, 0, data)
  {
    RefusedShrinks(data);
    if forall d :: d in data ==> Accepted(d) {
      ReceiveIsFeed([], data);
      IncrementalParsing(ps, data);
    } else {
      ReceiveSizes([], data);
      SizesAddUp(ReceiveAll([], data).segments);
    }
  }

  // ---------------------------------------------------------------- damage

  /** A packet and what happened to its bytes on the way. */
  datatype Hit = Hit(packet: Packet, error: Bytes) {
    predicate Clean() {
      error == Zeros(|error|)
    }

    /** Untouched, or hit by an odd number of flips or one burst of at most eight bits that
        spare the marker, type, priority and length bytes. */
    predicate Recoverable() {
      && Sendable(packet) && |error| == TotalSize(packet)
      && (Clean() || (Detectable(error) && error[0] == error[1] == error[2] == error[8] == error[9] == 0))
    }

    function Received(): Bytes
      requires |error| == TotalSize(packet)
    {
      Xor(PacketBytes(packet), error)
    }

    function Outcome(): Segment
      requires |error| == TotalSize(packet)
    {
      if Clean() then Frame(packet) else Damaged(Received())
    }
  }

  lemma LoopHit(h: Hit, rest: Bytes)
    requires h.Recoverable()
    ensures Loop(h.Received() + rest) == Parse([h.Outcome()] + Loop(rest).segments, Loop(rest).residue)
  {
    if h.Clean() {
      XorClean(PacketBytes(h.packet), h.error);
      LoopFrame(h.packet, rest);
    } else {
      HitDiscarded(h, rest);
    }
  }

  lemma XorClean(s: Bytes, e: Bytes)
    requires |s| == |e| && e == Zeros(|e|)
    ensures Xor(s, e) == s
  {
  }

  lemma HitDiscarded(h: Hit, rest: Bytes)
    requires h.Recoverable() && !h.Clean()
    ensures TakeTurn(h.Received() + rest) == Consume(Damaged(h.Received()), rest)
  {
    var frame, n := PacketBytes(h.packet), |h.error|;
    DamageKeepsSize(h.packet, h.error, rest);
    SendableRoundTrip(h.packet, []);
    assert frame + [] == frame && frame[..n] == frame;
    DamageRefused(frame, h.error, rest);
    assert (h.Received() + rest)[..n] == h.Received() && (h.Received() + rest)[n..] == rest;
  }

  predicate AllRecoverable(hits: seq<Hit>) {
    forall i :: 0 <= i < |hits| ==> hits[i].Recoverable()
  }

  function ReceivedStream(hits: seq<Hit>): Bytes
    requires AllRecoverable(hits)
  {
    if hits == [] then [] else hits[0].Received() + ReceivedStream(hits[1..])
  }

  function Outcomes(hits: seq<Hit>): seq<Segment>
    requires AllRecoverable(hits)
  {
    if hits == [] then [] else [hits[0].Outcome()] + Outcomes(hits[1..])
  }

  /** The packets that were not hit. */
  function Survivors(hits: seq<Hit>): seq<Packet> {
    if hits == [] then []
    else (if hits[0].Clean() then [hits[0].packet] else []) + Survivors(hits[1..])
  }

  lemma {:induction false} OutcomesDelivered(hits: seq<Hit>)
    requires AllRecoverable(hits)
    ensures Delivered(Outcomes(hits)) == Survivors(hits)
  {
    if hits != [] {
      OutcomesDelivered(hits[1..]);
      assert Outcomes(hits)[1..] == Outcomes(hits[1..]);
    }
  }

  lemma {:induction false} LoopHits(hits: seq<Hit>)
    requires AllRecoverable(hits)
    ensures Loop(ReceivedStream(hits)) == Parse(Outcomes(hits), [])
  {
    if hits != [] {
      LoopHit(hits[0], ReceivedStream(hits[1..]));
      LoopHits(hits[1..]);
    }
  }

  /** Damage to any subset of the frames costs exactly those frames: the others are
      delivered in order and nothing is left in the buffer. */
  lemma DamagedStreamRecovery(hits: seq<Hit>)
    requires AllRecoverable(hits)
    ensures Process(ReceivedStream(hits)) == Parse(Outcomes(hits), [])
    ensures Delivered(Process(ReceivedStream(hits)).segments) == Survivors(hits)
  {
    LoopHits(hits);
    OutcomesDelivered(hits);
  }
}
