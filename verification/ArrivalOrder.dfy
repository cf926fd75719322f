/** Whole runs of the base: which packets it passes up, and in which order. Nothing reorders. */
module ArrivalOrder {
  import opened Wire
  import opened Codec
  import opened Reliability
  import opened Protocol
  import opened BaseEvents

  /** A data packet that arrived, whether the session was active, and in which epoch of the
      acknowledged set. */
  datatype Arrival = Arrival(packet: Packet, from: Endpoint, active: bool, epoch: nat)

  /** The layer, the data that arrived at it and what it passed up, both in order. */
  datatype Trace = Trace(proto: Proto, epoch: nat, arrived: seq<Arrival>, passed: seq<(Packet, Endpoint)>)

  function PassedOne(x: Effect): seq<(Packet, Endpoint)> {
    if x.Forward? then [(x.packet, x.from)] else []
  }

  function PassedUp(effects: seq<Effect>): seq<(Packet, Endpoint)> {
    if effects == [] then [] else PassedOne(effects[0]) + PassedUp(effects[1..])
  }

  function ArrivedIn(j: Trace, t: Timed): seq<Arrival> {
    if t.event.Arrive? && IsData(t.event.packet)
    then [Arrival(t.event.packet, t.event.from, j.proto.sessionActive, j.epoch)] else []
  }

  function Step(j: Trace, t: Timed): Trace {
    var r := Apply(j.proto, t);
    Trace(r.proto, if EndsEpoch(j.proto, t) then j.epoch + 1 else j.epoch,
          j.arrived + ArrivedIn(j, t), j.passed + PassedUp(r.effects))
  }

  function Run(j: Trace, ts: seq<Timed>): Trace
    decreases |ts|
  {
    if ts == [] then j else Run(Step(j, ts[0]), ts[1..])
  }

  predicate AllAllowed(ts: seq<Timed>) {
    forall i :: 0 <= i < |ts| ==> Allowed(ts[i].event)
  }

  predicate Fresh(j: Trace) {
    && Started(j.proto) && j.proto.rel.acked == map[] && j.proto.rel.sent == map[]
    && j.arrived == [] && j.passed == []
  }

  // ---------------------------------------------------------------- the expected order

  predicate Covers(a: Arrival, from: Endpoint, seqNo: uint8, epoch: nat) {
    a.active && a.from == from && a.packet.header.sequence == seqNo && a.epoch == epoch
  }

  ghost predicate Covered(before: seq<Arrival>, from: Endpoint, seqNo: uint8, epoch: nat) {
    exists i :: 0 <= i < |before| && Covers(before[i], from, seqNo, epoch)
  }

  /** The number did not arrive before from its sender, in its epoch and an active session. */
  ghost predicate FirstCopy(before: seq<Arrival>, a: Arrival) {
    !Covered(before, a.from, a.packet.header.sequence, a.epoch)
  }

  /** The first copies, in the order of arrival. */
  ghost function FirstCopies(arrived: seq<Arrival>): seq<(Packet, Endpoint)> {
    if arrived == [] then []
    else
      var n := |arrived| - 1;
      FirstCopies(arrived[..n])
      + if FirstCopy(arrived[..n], arrived[n]) then [(arrived[n].packet, arrived[n].from)] else []
  }

  lemma FirstCopiesSnoc(arrived: seq<Arrival>, a: Arrival)
    ensures FirstCopies(arrived + [a])
         == FirstCopies(arrived) + if FirstCopy(arrived, a) then [(a.packet, a.from)] else []
  {
    assert (arrived + [a])[..|arrived|] == arrived;
  }

  lemma CoveredSnoc(arrived: seq<Arrival>, a: Arrival, from: Endpoint, seqNo: uint8, epoch: nat)
    ensures Covered(arrived + [a], from, seqNo, epoch)
            <==> Covered(arrived, from, seqNo, epoch) || Covers(a, from, seqNo, epoch)
  {
    if Covered(arrived, from, seqNo, epoch) {
      var i :| 0 <= i < |arrived| && Covers(arrived[i], from, seqNo, epoch);
      assert Covers((arrived + [a])[i], from, seqNo, epoch);
    } else if Covers(a, from, seqNo, epoch) {
      assert Covers((arrived + [a])[|arrived|], from, seqNo, epoch);
    }
  }

  // ---------------------------------------------------------------- one step

  lemma PassedTwo(ack: seq<Effect>, up: seq<Effect>)
    requires |ack| <= 1 && |up| <= 1 && (ack != [] ==> ack[0].Send?)
    ensures PassedUp(ack + up) == if up == [] then [] else PassedOne(up[0])
  {
    if up != [] {
      assert up[1..] == [] && PassedUp(up) == PassedOne(up[0]) + [];
    }
    if ack == [] {
      assert ack + up == up;
    } else {
      assert (ack + up)[1..] == up && (ack + up)[0] == ack[0];
    }
  }

  lemma DataStep(j: Trace, t: Timed)
    requires Started(j.proto) && t.event.Arrive? && IsData(t.event.packet)
    ensures var p, x, from, n := j.proto, t.event.packet, t.event.from, Step(j, t);
            && n.epoch == j.epoch && n.proto.rel.sent == p.rel.sent
            && n.arrived == j.arrived + [Arrival(x, from, p.sessionActive, j.epoch)]
            && n.passed == j.passed + (if HasAcked(p.rel, x.header.sequence, from) then [] else [(x, from)])
            && (forall k, e :: HasAcked(n.proto.rel, k, e) <==>
                  HasAcked(p.rel, k, e) || (p.sessionActive && k == x.header.sequence && e == from))
  {
    var p, x, from := j.proto, t.event.packet, t.event.from;
    DataEffects(p, x, from, t.now, t.ts);
    StaysStarted(p, t);
    var ack := Send(NewPacket(ACK, HIGH, p.current, t.ts, [ToByte(x.header.sequence)]), from);
    PassedTwo(if p.sessionActive then [ack] else [],
              if HasAcked(p.rel, x.header.sequence, from) then [] else [Forward(x, from)]);
  }

  lemma OtherStep(j: Trace, t: Timed)
    requires Started(j.proto) && KeepsData(j.proto) && Allowed(t.event)
    requires !(t.event.Arrive? && IsData(t.event.packet))
    ensures var n := Step(j, t);
            && n.arrived == j.arrived && n.passed == j.passed && KeepsData(n.proto)
            && n.epoch == (if EndsEpoch(j.proto, t) then j.epoch + 1 else j.epoch)
            && n.proto.rel.acked == (if EndsEpoch(j.proto, t) then map[] else j.proto.rel.acked)
  {
    OtherEffects(j.proto, t);
    var effects := Apply(j.proto, t).effects;
    PassedTwo(effects, []);
    assert effects + [] == effects && j.passed + [] == j.passed;
  }

  // ---------------------------------------------------------------- whole runs

  ghost predicate EpochsPast(j: Trace) {
    forall i :: 0 <= i < |j.arrived| ==> j.arrived[i].epoch <= j.epoch
  }

  /** The acknowledged set holds exactly the numbers that arrived in this epoch and an active
      session. */
  ghost predicate SetIsExact(j: Trace) {
    forall k, e :: HasAcked(j.proto.rel, k, e) <==> Covered(j.arrived, e, k, j.epoch)
  }

  ghost predicate Ordered(j: Trace) {
    && Started(j.proto) && KeepsData(j.proto) && EpochsPast(j) && SetIsExact(j)
    && j.passed == FirstCopies(j.arrived)
  }

  lemma DataStaysOrdered(j: Trace, t: Timed)
    requires Ordered(j) && t.event.Arrive? && IsData(t.event.packet)
    ensures Ordered(Step(j, t))
  {
    StaysStarted(j.proto, t);
    DataStep(j, t);
    var a := Arrival(t.event.packet, t.event.from, j.proto.sessionActive, j.epoch);
    FirstCopiesSnoc(j.arrived, a);
    forall k: uint8, e: Endpoint
      ensures HasAcked(Step(j, t).proto.rel, k, e) <==> Covered(Step(j, t).arrived, e, k, j.epoch)
    {
      CoveredSnoc(j.arrived, a, e, k, j.epoch);
    }
  }

  lemma StepStaysOrdered(j: Trace, t: Timed)
    requires Ordered(j) && Allowed(t.event)
    ensures Ordered(Step(j, t))
  {
    if t.event.Arrive? && IsData(t.event.packet) {
      DataStaysOrdered(j, t);
    } else {
      StaysStarted(j.proto, t);
      OtherStep(j, t);
    }
  }

  lemma {:induction false} RunStaysOrdered(j: Trace, ts: seq<Timed>)
    requires Ordered(j) && AllAllowed(ts)
    ensures Ordered(Run(j, ts))
    decreases |ts|
  {
    if ts != [] {
      assert Allowed(ts[0].event);
      StepStaysOrdered(j, ts[0]);
      RunStaysOrdered(Step(j, ts[0]), ts[1..]);
    }
  }

  /** In every run, whatever the senders, cleanups, resets and session changes: what the base
      passes up is the data that arrived, in the order of arrival, without the copies of a
      number that had arrived from the same sender in the same epoch and an active session. */
  lemma PassedInArrivalOrder(j: Trace, ts: seq<Timed>)
    requires Fresh(j) && AllAllowed(ts)
    ensures Run(j, ts).passed == FirstCopies(Run(j, ts).arrived)
  {
    RunStaysOrdered(j, ts);
  }
}
