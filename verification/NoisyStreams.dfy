/** Recovery from garbage: frames, damaged or not, among stretches without a start marker. */
module NoisyStreams {
  import opened Pieces
  import opened Wire
  import opened Codec
  import opened FrameBuffer
  import opened Streams

  predicate StxFree(g: Bytes) {
    forall i :: 0 <= i < |g| ==> g[i] != STX
  }

  /** Garbage, then a frame and what happened to it on the way. */
  datatype Stretch = Stretch(noise: Bytes, hit: Hit) {
    predicate Recoverable() {
      StxFree(noise) && hit.Recoverable()
    }

    function Received(): Bytes
      requires Recoverable()
    {
      noise + hit.Received()
    }

    function Outcomes(): seq<Segment>
      requires Recoverable()
    {
      (if noise == [] then [] else [Noise(noise)]) + [hit.Outcome()]
    }
  }

  /** A frame that lost its marker, and holds no other, is garbage. */
  lemma LostMarkerIsNoise(h: Hit)
    requires |h.error| == TotalSize(h.packet) && h.error[0] != 0
    requires forall i :: 1 <= i < |h.error| ==> h.Received()[i] != STX
    ensures StxFree(h.Received())
  {
    assert PacketBytes(h.packet)[0] == HeaderBytes(h.packet.header)[0] == STX;
    PlusChanges(PacketBytes(h.packet)[0], h.error[0]);
  }

  lemma HitBegins(h: Hit)
    requires h.Recoverable()
    ensures h.Received() != [] && h.Received()[0] == STX
  {
    assert PacketBytes(h.packet)[0] == HeaderBytes(h.packet.header)[0] == STX;
    PlusZeroes(PacketBytes(h.packet)[0]);
  }

  /** The marker search drops exactly the garbage. */
  lemma NoiseTurn(g: Bytes, rest: Bytes)
    requires g != [] && StxFree(g) && rest != [] && rest[0] == STX
    ensures TakeTurn(g + rest) == Consume(Noise(g), rest)
  {
    var buf := g + rest;
    var n := FindStx(buf, 1);
    assert buf[|g|] == STX;
    assert n == |g|;
    assert buf[..n] == g && buf[n..] == rest;
  }

  lemma LoopNoise(g: Bytes, rest: Bytes)
    requires g != [] && StxFree(g) && rest != [] && rest[0] == STX
    ensures Loop(g + rest) == Parse([Noise(g)] + Loop(rest).segments, Loop(rest).residue)
  {
    NoiseTurn(g, rest);
  }

  lemma LoopNoisyStretch(g: Bytes, h: Hit, rest: Bytes)
    requires g != [] && StxFree(g) && h.Recoverable()
    ensures Loop(g + (h.Received() + rest))
         == Parse([Noise(g)] + [h.Outcome()] + Loop(rest).segments, Loop(rest).residue)
  {
    HitBegins(h);
    LoopHit(h, rest);
    LoopNoise(g, h.Received() + rest);
    Associate([Noise(g)], [h.Outcome()], Loop(rest).segments);
  }

  lemma LoopQuietStretch(h: Hit, rest: Bytes)
    requires h.Recoverable()
    ensures Loop([] + (h.Received() + rest)) == Parse([] + [h.Outcome()] + Loop(rest).segments, Loop(rest).residue)
  {
    LoopHit(h, rest);
    assert [] + (h.Received() + rest) == h.Received() + rest && [] + [h.Outcome()] == [h.Outcome()];
  }

  lemma LoopStretch(s: Stretch, rest: Bytes)
    requires s.Recoverable()
    ensures Loop(s.Received() + rest) == Parse(s.Outcomes() + Loop(rest).segments, Loop(rest).residue)
  {
    Associate(s.noise, s.hit.Received(), rest);
    if s.noise == [] {
      LoopQuietStretch(s.hit, rest);
    } else {
      LoopNoisyStretch(s.noise, s.hit, rest);
    }
  }

  predicate AllRecoverable(ss: seq<Stretch>) {
    forall i :: 0 <= i < |ss| ==> ss[i].Recoverable()
  }

  function ReceivedStream(ss: seq<Stretch>, tail: Bytes): Bytes
    requires AllRecoverable(ss)
  {
    if ss == [] then tail else ss[0].Received() + ReceivedStream(ss[1..], tail)
  }

  function Outcomes(ss: seq<Stretch>): seq<Segment>
    requires AllRecoverable(ss)
  {
    if ss == [] then [] else ss[0].Outcomes() + Outcomes(ss[1..])
  }

  function Survivors(ss: seq<Stretch>): seq<Packet> {
    if ss == [] then []
    else (if ss[0].hit.Clean() then [ss[0].hit.packet] else []) + Survivors(ss[1..])
  }

  lemma StretchDelivers(s: Stretch)
    requires s.Recoverable()
    ensures Delivered(s.Outcomes()) == if s.hit.Clean() then [s.hit.packet] else []
  {
    var last := [s.hit.Outcome()];
    assert last[1..] == [];
    assert Delivered(last) == OptionSeq(DeliveredBy(last[0])) + [];
    if s.noise == [] {
      assert s.Outcomes() == last;
    } else {
      assert s.Outcomes()[1..] == last;
    }
  }

  lemma {:induction false} OutcomesDeliver(ss: seq<Stretch>)
    requires AllRecoverable(ss)
    ensures Delivered(Outcomes(ss)) == Survivors(ss)
  {
    if ss != [] {
      OutcomesDeliver(ss[1..]);
      StretchDelivers(ss[0]);
      DeliveredConcat(ss[0].Outcomes(), Outcomes(ss[1..]));
    }
  }

  lemma {:induction false} LoopStretches(ss: seq<Stretch>, tail: Bytes)
    requires AllRecoverable(ss)
    ensures Loop(ReceivedStream(ss, tail)) == Parse(Outcomes(ss) + Loop(tail).segments, Loop(tail).residue)
  {
    if ss == [] {
      assert [] + Loop(tail).segments == Loop(tail).segments;
    } else {
      LoopStretch(ss[0], ReceivedStream(ss[1..], tail));
      LoopStretches(ss[1..], tail);
      Associate(ss[0].Outcomes(), Outcomes(ss[1..]), Loop(tail).segments);
    }
  }

  lemma LoopTail(tail: Bytes)
    requires StxFree(tail)
    ensures Loop(tail) == if |tail| > 2048 then Parse([Flushed(tail)], []) else Parse([], tail)
  {
    if tail != [] {
      var n := FindStx(tail, 1);
      assert n == |tail|;
    }
  }

  lemma LimitTail(tail: Bytes)
    requires StxFree(tail)
    ensures Limit(Loop(tail))
         == if |tail| > 2048 then Parse([Flushed(tail)], []) else Parse([], tail)
  {
    LoopTail(tail);
  }

  lemma NoisyParse(ss: seq<Stretch>, tail: Bytes)
    requires AllRecoverable(ss) && StxFree(tail)
    ensures Process(ReceivedStream(ss, tail))
         == if |tail| > 2048 then Parse(Outcomes(ss) + [Flushed(tail)], [])
            else Parse(Outcomes(ss) + [], tail)
  {
    LoopStretches(ss, tail);
    LimitAfter(Outcomes(ss), Loop(tail));
    LimitTail(tail);
  }

  lemma FlushDeliversNothing(segments: seq<Segment>, b: Bytes)
    ensures Delivered(segments + [Flushed(b)]) == Delivered(segments)
  {
    DeliveredConcat(segments, [Flushed(b)]);
    assert [Flushed(b)][1..] == [] && Delivered([Flushed(b)]) == [];
    assert Delivered(segments) + [] == Delivered(segments);
  }

  /** Frames among garbage, any of them damaged, with garbage behind: exactly the frames not
      hit are delivered, in order; each stretch of garbage is dropped whole; and what is left
      is the garbage behind, unless it is too long to keep. */
  lemma NoisyStreamRecovery(ss: seq<Stretch>, tail: Bytes)
    requires AllRecoverable(ss) && StxFree(tail)
    ensures var r := Process(ReceivedStream(ss, tail));
            && Delivered(r.segments) == Survivors(ss)
            && r == if |tail| > 2048 then Parse(Outcomes(ss) + [Flushed(tail)], [])
                    else Parse(Outcomes(ss), tail)
  {
    NoisyParse(ss, tail);
    OutcomesDeliver(ss);
    FlushDeliversNothing(Outcomes(ss), tail);
    assert Outcomes(ss) + [] == Outcomes(ss);
  }
}
