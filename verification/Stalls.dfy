/** A frame hit in its length field: the buffer waits for bytes that never come and swallows
    the frames behind it, but only up to the size limit. */
module Stalls {
  import opened Pieces
  import opened Wire
  import opened Codec
  import opened FrameBuffer
  import opened Streams

  /** The size declared by the header at the front. */
  function Declared(buf: Bytes): nat
    requires ParseHeader(buf).Some?
  {
    DeclaredSize(ParseHeader(buf).value)
  }

  /** An incomplete frame that the buffer keeps. */
  predicate Waiting(buf: Bytes) {
    ParseHeader(buf).Some? && |buf| < Declared(buf) && |buf| <= 4096
  }

  lemma WaitingIsQuiescent(buf: Bytes)
    requires Waiting(buf)
    ensures Quiescent(buf)
  {
  }

  lemma Incomplete(buf: Bytes)
    requires ParseHeader(buf).Some? && |buf| < Declared(buf)
    ensures Process(buf) == if |buf| > 4096 then Parse([Flushed(buf)], []) else Parse([], buf)
  {
    assert TakeTurn(buf).Wait?;
    assert Loop(buf) == Parse([], buf);
    assert [] + [Flushed(buf)] == [Flushed(buf)];
  }

  lemma HeaderStillParses(bytes: Bytes, kind: MessageType, priority: Priority)
    requires |bytes| >= HEADER_SIZE
    requires bytes[0] == STX && bytes[1] == TypeByte(kind) && bytes[2] == PriorityByte(priority)
    ensures ParseHeader(bytes).Some? && Declared(bytes) == HEADER_SIZE + LengthOf(bytes[8], bytes[9]) + 2
  {
  }

  lemma FrontBytes(p: Packet)
    ensures var f := PacketBytes(p);
            f[0] == STX && f[1] == TypeByte(p.header.kind) && f[2] == PriorityByte(p.header.priority)
  {
    var h := HeaderBytes(p.header);
    assert PacketBytes(p)[0] == h[0] && PacketBytes(p)[1] == h[1] && PacketBytes(p)[2] == h[2];
  }

  /** A frame whose length field was raised waits. */
  lemma RaisedLengthWaits(h: Hit)
    requires |h.error| == TotalSize(h.packet) <= 4096
    requires h.error[0] == h.error[1] == h.error[2] == 0
    requires LengthOf(h.Received()[8], h.Received()[9]) > |h.packet.payload|
    ensures Waiting(h.Received()) && Process(h.Received()) == Parse([], h.Received())
  {
    var frame := PacketBytes(h.packet);
    FrontBytes(h.packet);
    PlusZeroes(frame[0]);
    PlusZeroes(frame[1]);
    PlusZeroes(frame[2]);
    HeaderStillParses(h.Received(), h.packet.header.kind, h.packet.header.priority);
    Incomplete(h.Received());
  }

  // ---------------------------------------------------------------- one datagram

  lemma SameHeader(r: Bytes, d: Bytes)
    requires ParseHeader(r).Some?
    ensures ParseHeader(r + d) == ParseHeader(r)
  {
    assert (r + d)[..HEADER_SIZE] == r[..HEADER_SIZE];
    HeaderPrefix(r + d, r);
  }

  /** While the declared size is not reached, the buffer keeps what comes or, beyond 4096
      bytes, drops everything, at the end of that datagram. */
  lemma StillIncomplete(r: Bytes, d: Bytes)
    requires Waiting(r) && |r + d| < Declared(r)
    ensures if |r + d| > 4096 then Process(r + d) == Parse([Flushed(r + d)], [])
            else Process(r + d) == Parse([], r + d) && Waiting(r + d) && Declared(r + d) == Declared(r)
  {
    SameHeader(r, d);
    Incomplete(r + d);
  }

  /** When it is reached, the loop consumes exactly the declared size first. */
  lemma Completed(r: Bytes, d: Bytes)
    requires Waiting(r) && |r + d| >= Declared(r)
    ensures var t := TakeTurn(r + d);
            t.Consume? && t.rest == (r + d)[Declared(r)..] && SegmentBytes(t.segment) == (r + d)[..Declared(r)]
  {
    SameHeader(r, d);
    TurnConserves(r + d);
    if ParsePacket(r + d).Some? {
      ParseSound(r + d);
    }
  }

  // ---------------------------------------------------------------- frames behind it

  lemma OneFrame(p: Packet)
    requires Sendable(p)
    ensures Process([] + PacketBytes(p)) == Parse([Frame(p)], [])
  {
    WholeStream([p]);
    StreamCons([p]);
    assert [p][1..] == [] && Stream([]) == [];
    assert PacketBytes(p) + [] == PacketBytes(p) == [] + PacketBytes(p);
    assert Frames([p]) == [Frame(p)];
  }

  /** `f` delivers the packet of a datagram that comes alone. */
  ghost predicate Alone(f: Bytes -> Parse, d: Bytes, p: Packet) {
    f([] + d) == Parse([Frame(p)], [])
  }

  ghost predicate AllAlone(f: Bytes -> Parse, ds: seq<Bytes>, ps: seq<Packet>) {
    |ds| == |ps| && forall i :: 0 <= i < |ds| ==> Alone(f, ds[i], ps[i])
  }

  /** What `f` does with `d` behind `r` while the declared size is not reached. */
  ghost predicate Holds(f: Bytes -> Parse, r: Bytes, d: Bytes) {
    if |r + d| > 4096 then f(r + d) == Parse([Flushed(r + d)], []) else f(r + d) == Parse([], r + d)
  }

  ghost predicate HoldsUpTo(f: Bytes -> Parse, r: Bytes, n: nat) {
    forall d :: |r + d| < n ==> Holds(f, r, d)
  }

  lemma FeedCons(f: Bytes -> Parse, r: Bytes, ds: seq<Bytes>)
    requires ds != []
    ensures FeedWith(f, r, ds) == Then(f(r + ds[0]), FeedWith(f, f(r + ds[0]).residue, ds[1..]))
  {
  }

  lemma FramesCons(ps: seq<Packet>)
    requires ps != []
    ensures [Frame(ps[0])] + Frames(ps[1..]) == Frames(ps)
  {
  }

  lemma {:induction false} OneByOne(f: Bytes -> Parse, ds: seq<Bytes>, ps: seq<Packet>)
    requires AllAlone(f, ds, ps)
    ensures FeedWith(f, [], ds) == Parse(Frames(ps), [])
  {
    if ds != [] {
      assert Alone(f, ds[0], ps[0]);
      FeedCons(f, [], ds);
      OneByOne(f, ds[1..], ps[1..]);
      FramesCons(ps);
    }
  }

  /** How many datagrams are swallowed when the buffer holds `size` bytes. */
  function Swallowed(size: nat, ds: seq<Bytes>): (k: nat)
    ensures k <= |ds|
    decreases |ds|
  {
    if size > 4096 || ds == [] then 0 else 1 + Swallowed(size + |ds[0]|, ds[1..])
  }

  /** Those are the datagrams up to the one that passes the limit. */
  lemma {:induction false} SwallowedIsLeast(size: nat, ds: seq<Bytes>, k: nat)
    requires k < Swallowed(size, ds)
    ensures size + |Join(ds[..k])| <= 4096
    decreases k
  {
    if k == 0 {
      assert ds[..0] == [];
    } else {
      SwallowedIsLeast(size + |ds[0]|, ds[1..], k - 1);
      assert ds[..k][1..] == ds[1..][..k - 1];
    }
  }

  lemma DeliveredAfterFlush(b: Bytes, ps: seq<Packet>)
    ensures Delivered([Flushed(b)] + Frames(ps)) == ps
  {
    DeliveredFrames(ps);
    assert ([Flushed(b)] + Frames(ps))[1..] == Frames(ps);
    assert Delivered([Flushed(b)] + Frames(ps)) == [] + Delivered(Frames(ps));
  }

  lemma StallFlushes(f: Bytes -> Parse, buf: Bytes, ds: seq<Bytes>, ps: seq<Packet>)
    requires AllAlone(f, ds, ps) && ds != [] && f(buf + ds[0]) == Parse([Flushed(buf + ds[0])], [])
    ensures FeedWith(f, buf, ds) == Parse([Flushed(buf + ds[0])] + Frames(ps[1..]), [])
  {
    FeedCons(f, buf, ds);
    assert AllAlone(f, ds[1..], ps[1..]) by {
      forall i | 0 <= i < |ds[1..]| ensures Alone(f, ds[1..][i], ps[1..][i]) {
        assert Alone(f, ds[i + 1], ps[i + 1]);
      }
    }
    OneByOne(f, ds[1..], ps[1..]);
  }

  lemma StallWaits(f: Bytes -> Parse, buf: Bytes, ds: seq<Bytes>)
    requires ds != [] && f(buf + ds[0]) == Parse([], buf + ds[0])
    ensures FeedWith(f, buf, ds) == FeedWith(f, buf + ds[0], ds[1..])
  {
    FeedCons(f, buf, ds);
    var more := FeedWith(f, buf + ds[0], ds[1..]);
    assert [] + more.segments == more.segments;
  }

  /** What the datagrams behind `r + s` come to. */
  ghost predicate Outcome(fed: Parse, buf: Bytes, ds: seq<Bytes>, ps: seq<Packet>)
    requires |ds| == |ps|
  {
    && Delivered(fed.segments) == ps[Swallowed(|buf|, ds)..]
    && fed.residue == if |buf + Join(ds)| > 4096 then [] else buf + Join(ds)
  }

  lemma OutcomeBounds(fed: Parse, buf: Bytes, ds: seq<Bytes>, ps: seq<Packet>)
    requires |ds| == |ps| && Outcome(fed, buf, ds, ps)
    ensures var k := Swallowed(|buf|, ds);
            && Delivered(fed.segments) == ps[k..]
            && (k > 0 ==> |buf| + |Join(ds[..k - 1])| <= 4096)
            && fed.residue == if |buf + Join(ds)| > 4096 then [] else buf + Join(ds)
  {
    var k := Swallowed(|buf|, ds);
    if k > 0 {
      SwallowedIsLeast(|buf|, ds, k - 1);
    }
  }

  lemma FlushOutcome(fed: Parse, buf: Bytes, ds: seq<Bytes>, ps: seq<Packet>)
    requires |ds| == |ps| && ds != [] && |buf| <= 4096 < |buf + ds[0]|
    requires fed == Parse([Flushed(buf + ds[0])] + Frames(ps[1..]), [])
    ensures Outcome(fed, buf, ds, ps)
  {
    DeliveredAfterFlush(buf + ds[0], ps[1..]);
    assert Swallowed(|buf|, ds) == 1;
  }

  lemma WaitOutcome(fed: Parse, buf: Bytes, ds: seq<Bytes>, ps: seq<Packet>)
    requires |ds| == |ps| && ds != [] && |buf| <= 4096 && Outcome(fed, buf + ds[0], ds[1..], ps[1..])
    ensures Outcome(fed, buf, ds, ps)
  {
    Associate(buf, ds[0], Join(ds[1..]));
    var k := Swallowed(|buf + ds[0]|, ds[1..]);
    assert ps[1..][k..] == ps[k + 1..];
  }

  lemma {:induction false} StallFeeds(f: Bytes -> Parse, r: Bytes, n: nat, s: Bytes, ds: seq<Bytes>, ps: seq<Packet>)
    requires HoldsUpTo(f, r, n) && AllAlone(f, ds, ps)
    requires |r + s| + |Join(ds)| < n && |r + s| <= 4096
    ensures Outcome(FeedWith(f, r + s, ds), r + s, ds, ps)
    decreases |ds|
  {
    if ds == [] {
      assert r + s + [] == r + s;
    } else {
      Associate(r, s, ds[0]);
      assert Holds(f, r, s + ds[0]);
      if |r + s + ds[0]| > 4096 {
        StallFlushes(f, r + s, ds, ps);
        FlushOutcome(FeedWith(f, r + s, ds), r + s, ds, ps);
      } else {
        StallWaits(f, r + s, ds);
        assert AllAlone(f, ds[1..], ps[1..]) by {
          forall i | 0 <= i < |ds[1..]| ensures Alone(f, ds[1..][i], ps[1..][i]) {
            assert Alone(f, ds[i + 1], ps[i + 1]);
          }
        }
        StallFeeds(f, r, n, s + ds[0], ds[1..], ps[1..]);
        WaitOutcome(FeedWith(f, r + s, ds), r + s, ds, ps);
      }
    }
  }

  // ---------------------------------------------------------------- the theorem

  lemma ProcessHolds(r: Bytes)
    requires Waiting(r)
    ensures HoldsUpTo(Process, r, Declared(r))
  {
    forall d | |r + d| < Declared(r) ensures Holds(Process, r, d) {
      StillIncomplete(r, d);
    }
  }

  lemma FramesAlone(ps: seq<Packet>)
    requires AllSendable(ps)
    ensures AllAlone(Process, Encodings(ps), ps)
  {
    forall i | 0 <= i < |ps| ensures Alone(Process, Encodings(ps)[i], ps[i]) {
      OneFrame(ps[i]);
    }
  }

  lemma FramesAccepted(ps: seq<Packet>)
    ensures forall d :: d in Encodings(ps) ==> Accepted(d)
  {
    forall d | d in Encodings(ps) ensures Accepted(d) {
      var i :| 0 <= i < |ps| && d == PacketBytes(ps[i]);
      FrontBytes(ps[i]);
    }
  }

  lemma StallReceives(r: Bytes, ps: seq<Packet>)
    requires Waiting(r)
    ensures ReceiveAll(r, Encodings(ps)) == FeedWith(Process, r, Encodings(ps))
  {
    WaitingIsQuiescent(r);
    FramesAccepted(ps);
    ReceiveIsFeed(r, Encodings(ps));
  }

  lemma StallOutcome(r: Bytes, ps: seq<Packet>)
    requires Waiting(r) && AllSendable(ps) && |r| + |Stream(ps)| < Declared(r)
    ensures Outcome(ReceiveAll(r, Encodings(ps)), r, Encodings(ps), ps)
  {
    StallReceives(r, ps);
    ProcessHolds(r);
    FramesAlone(ps);
    assert r + [] == r;
    StallFeeds(Process, r, Declared(r), [], Encodings(ps), ps);
  }

  /** Behind a frame that waits for a false length, with intact frames arriving one by one and
      the length not reached: the frames up to the one that takes the buffer past 4096 bytes
      are lost, all the others are delivered, in order, and nothing is left. */
  lemma StallIsBounded(r: Bytes, ps: seq<Packet>)
    requires Waiting(r) && AllSendable(ps) && |r| + |Stream(ps)| < Declared(r)
    ensures var f, k := ReceiveAll(r, Encodings(ps)), Swallowed(|r|, Encodings(ps));
            && Delivered(f.segments) == ps[k..]
            && (k > 0 ==> |r| + |Join(Encodings(ps)[..k - 1])| <= 4096)
            && f.residue == if |r + Stream(ps)| > 4096 then [] else r + Stream(ps)
  {
    StallOutcome(r, ps);
    OutcomeBounds(ReceiveAll(r, Encodings(ps)), r, Encodings(ps), ps);
  }
}
