/** Whole runs of the base: how acknowledgements and forwards correspond, per endpoint and
    sequence number, between two clearings of the acknowledged set. */
module AckEpochs {
  import opened Wire
  import opened Codec
  import opened Reliability
  import opened Protocol
  import opened BaseEvents

  datatype Passed = Passed(from: Endpoint, seqNo: uint8, active: bool, epoch: nat, at: int)

  datatype Acked = Acked(to: Endpoint, seqNo: uint8, epoch: nat)

  /** The layer and the record of what it did. `clears` holds the times at which the
      acknowledged set was emptied; its length is the number of the current epoch. */
  datatype Journal = Journal(proto: Proto, now: int, clears: seq<int>, resets: nat,
                             forwards: seq<Passed>, acks: seq<Acked>)

  function ForwardOf(x: Effect, active: bool, epoch: nat, now: int): seq<Passed> {
    if x.Forward? then [Passed(x.from, x.packet.header.sequence, active, epoch, now)] else []
  }

  function ForwardsIn(effects: seq<Effect>, active: bool, epoch: nat, now: int): seq<Passed> {
    if effects == [] then []
    else ForwardOf(effects[0], active, epoch, now) + ForwardsIn(effects[1..], active, epoch, now)
  }

  function AckOf(x: Effect, epoch: nat): seq<Acked> {
    if x.Send? && x.packet.header.kind.ACK? && |x.packet.payload| >= 1
    then [Acked(x.to, x.packet.payload[0] as int, epoch)] else []
  }

  function AcksIn(effects: seq<Effect>, epoch: nat): seq<Acked> {
    if effects == [] then [] else AckOf(effects[0], epoch) + AcksIn(effects[1..], epoch)
  }

  function Step(j: Journal, t: Timed): Journal {
    var r := Apply(j.proto, t);
    var epoch := |j.clears|;
    Journal(r.proto, t.now,
            if EndsEpoch(j.proto, t) then j.clears + [t.now] else j.clears,
            if t.event.ResetAll? then j.resets + 1 else j.resets,
            j.forwards + ForwardsIn(r.effects, j.proto.sessionActive, epoch, t.now),
            j.acks + AcksIn(r.effects, epoch))
  }

  function Run(j: Journal, ts: seq<Timed>): Journal
    decreases |ts|
  {
    if ts == [] then j else Run(Step(j, ts[0]), ts[1..])
  }

  predicate Fresh(j: Journal) {
    && Started(j.proto) && j.proto.rel.acked == map[] && j.proto.rel.sent == map[]
    && j.clears == [] && j.resets == 0 && j.forwards == [] && j.acks == []
  }

  // ---------------------------------------------------------------- one step

  predicate SamePair(f: Passed, g: Passed) {
    f.from == g.from && f.seqNo == g.seqNo
  }

  lemma ForwardsConcat(a: Effect, rest: seq<Effect>, active: bool, epoch: nat, now: int)
    ensures ForwardsIn([a] + rest, active, epoch, now)
         == ForwardOf(a, active, epoch, now) + ForwardsIn(rest, active, epoch, now)
    ensures AcksIn([a] + rest, epoch) == AckOf(a, epoch) + AcksIn(rest, epoch)
  {
  }

  lemma OneRecorded(a: Effect, active: bool, epoch: nat, now: int)
    ensures ForwardsIn([a], active, epoch, now) == ForwardOf(a, active, epoch, now)
    ensures AcksIn([a], epoch) == AckOf(a, epoch)
  {
  }

  lemma DataRecords(acks: seq<Effect>, fwds: seq<Effect>, s: uint8, from: Endpoint, current: uint8, ts: bv32,
                    packet: Packet, active: bool, epoch: nat, now: int)
    requires acks == [] || acks == [Send(NewPacket(ACK, HIGH, current, ts, [ToByte(s)]), from)]
    requires fwds == [] || fwds == [Forward(packet, from)]
    ensures ForwardsIn(acks + fwds, active, epoch, now)
            == if fwds == [] then [] else [Passed(from, packet.header.sequence, active, epoch, now)]
    ensures AcksIn(acks + fwds, epoch) == if acks == [] then [] else [Acked(from, s, epoch)]
  {
    if fwds != [] {
      OneRecorded(fwds[0], active, epoch, now);
    }
    if acks == [] {
      assert acks + fwds == fwds;
    } else {
      ForwardsConcat(acks[0], fwds, active, epoch, now);
      assert AckOf(acks[0], epoch) == [Acked(from, s, epoch)];
      assert ForwardOf(acks[0], active, epoch, now) == [];
    }
  }

  /** What a data packet adds to the record. */
  lemma DataStep(j: Journal, t: Timed)
    requires Started(j.proto) && t.event.Arrive? && IsData(t.event.packet)
    ensures var p, n, s, from := j.proto, Step(j, t), t.event.packet.header.sequence, t.event.from;
            && n.forwards == j.forwards + (if HasAcked(p.rel, s, from) then []
                                           else [Passed(from, s, p.sessionActive, |j.clears|, t.now)])
            && n.acks == j.acks + (if p.sessionActive then [Acked(from, s, |j.clears|)] else [])
            && (forall k, e :: HasAcked(n.proto.rel, k, e) <==>
                  HasAcked(p.rel, k, e) || (p.sessionActive && k == s && e == from))
            && n.clears == j.clears && n.resets == j.resets
            && n.proto.rel.lastAckCleanup == p.rel.lastAckCleanup && n.proto.rel.sent == p.rel.sent
  {
    var p, s, from, packet := j.proto, t.event.packet.header.sequence, t.event.from, t.event.packet;
    DataEffects(p, packet, from, t.now, t.ts);
    DataRecords(if p.sessionActive then [Send(NewPacket(ACK, HIGH, p.current, t.ts, [ToByte(s)]), from)] else [],
                if HasAcked(p.rel, s, from) then [] else [Forward(packet, from)],
                s, from, p.current, t.ts, packet, p.sessionActive, |j.clears|, t.now);
    StaysStarted(p, t);
  }

  /** Every other event adds nothing. */
  lemma OtherStep(j: Journal, t: Timed)
    requires Started(j.proto) && KeepsData(j.proto) && Allowed(t.event)
    requires !(t.event.Arrive? && IsData(t.event.packet))
    ensures var n := Step(j, t);
            && n.forwards == j.forwards && n.acks == j.acks
            && n.proto.rel.acked == (if EndsEpoch(j.proto, t) then map[] else j.proto.rel.acked)
            && n.proto.rel.lastAckCleanup
               == (if EndsEpoch(j.proto, t) && t.event.CleanupTick? then t.now else j.proto.rel.lastAckCleanup)
            && KeepsData(n.proto)
  {
    OtherEffects(j.proto, t);
    var effects := Apply(j.proto, t).effects;
    if effects != [] {
      OneRecorded(effects[0], j.proto.sessionActive, |j.clears|, t.now);
    }
  }

  // ---------------------------------------------------------------- the correspondence

  predicate ActiveFor(f: Passed, e: Endpoint, k: uint8, epoch: nat) {
    f.active && f.from == e && f.seqNo == k && f.epoch == epoch
  }

  ghost predicate PassedActively(fs: seq<Passed>, e: Endpoint, k: uint8, epoch: nat) {
    exists i :: 0 <= i < |fs| && ActiveFor(fs[i], e, k, epoch)
  }

  /** Nothing follows an active forward of the same pair in its epoch. */
  ghost predicate ActiveIsLast(fs: seq<Passed>) {
    forall i, j :: 0 <= i < j < |fs| && SamePair(fs[i], fs[j]) && fs[i].epoch == fs[j].epoch ==> !fs[i].active
  }

  /** Epochs never go back, and none is later than `now`. */
  ghost predicate EpochsGrow(fs: seq<Passed>, now: nat) {
    && (forall i :: 0 <= i < |fs| ==> fs[i].epoch <= now)
    && (forall i, j :: 0 <= i < j < |fs| ==> fs[i].epoch <= fs[j].epoch)
  }

  ghost predicate AcksMatched(acks: seq<Acked>, fs: seq<Passed>) {
    forall a :: a in acks ==> PassedActively(fs, a.to, a.seqNo, a.epoch)
  }

  /** The acknowledged set holds exactly the pairs forwarded actively in this epoch. */
  ghost predicate SetIsExact(j: Journal) {
    forall k, e :: HasAcked(j.proto.rel, k, e) <==> PassedActively(j.forwards, e, k, |j.clears|)
  }

  ghost predicate Coherent(j: Journal) {
    && Started(j.proto) && KeepsData(j.proto)
    && ActiveIsLast(j.forwards) && EpochsGrow(j.forwards, |j.clears|)
    && AcksMatched(j.acks, j.forwards) && SetIsExact(j)
  }

  lemma PassedGrows(fs: seq<Passed>, f: Passed)
    ensures forall e, k, n ::
              PassedActively(fs + [f], e, k, n) <==> PassedActively(fs, e, k, n) || ActiveFor(f, e, k, n)
  {
    forall e, k, n | PassedActively(fs, e, k, n) || ActiveFor(f, e, k, n) ensures PassedActively(fs + [f], e, k, n) {
      if PassedActively(fs, e, k, n) {
        var i :| 0 <= i < |fs| && ActiveFor(fs[i], e, k, n);
        assert ActiveFor((fs + [f])[i], e, k, n);
      } else {
        assert ActiveFor((fs + [f])[|fs|], e, k, n);
      }
    }
  }

  lemma AppendKeepsOrder(fs: seq<Passed>, f: Passed)
    requires ActiveIsLast(fs) && EpochsGrow(fs, f.epoch) && !PassedActively(fs, f.from, f.seqNo, f.epoch)
    ensures ActiveIsLast(fs + [f]) && EpochsGrow(fs + [f], f.epoch)
  {
  }

  lemma StepKeepsCoherence(j: Journal, t: Timed)
    requires Coherent(j) && Allowed(t.event)
    ensures Coherent(Step(j, t))
  {
    StaysStarted(j.proto, t);
    var n := Step(j, t);
    if t.event.Arrive? && IsData(t.event.packet) {
      var s, from := t.event.packet.header.sequence, t.event.from;
      var f := Passed(from, s, j.proto.sessionActive, |j.clears|, t.now);
      DataStep(j, t);
      if HasAcked(j.proto.rel, s, from) {
        assert n.forwards == j.forwards;
      } else {
        PassedGrows(j.forwards, f);
        AppendKeepsOrder(j.forwards, f);
      }
    } else {
      OtherStep(j, t);
    }
  }

  lemma {:induction false} RunStaysCoherent(j: Journal, ts: seq<Timed>)
    requires Coherent(j) && Valid(j.now, ts)
    ensures Coherent(Run(j, ts))
    decreases |ts|
  {
    if ts != [] {
      StepKeepsCoherence(j, ts[0]);
      RunStaysCoherent(Step(j, ts[0]), ts[1..]);
    }
  }

  /** In every run, each acknowledgement has exactly one active forward of its endpoint and
      number in its epoch, and no forward of that pair, active or not, comes after it there. */
  lemma AckMatchesOneForward(j: Journal, ts: seq<Timed>, a: Acked) returns (i: nat)
    requires Fresh(j) && Valid(j.now, ts) && a in Run(j, ts).acks
    ensures i < |Run(j, ts).forwards| && ActiveFor(Run(j, ts).forwards[i], a.to, a.seqNo, a.epoch)
    ensures forall m :: 0 <= m < |Run(j, ts).forwards| && m != i ==>
              !ActiveFor(Run(j, ts).forwards[m], a.to, a.seqNo, a.epoch)
    ensures forall m :: i < m < |Run(j, ts).forwards| && Run(j, ts).forwards[m].epoch == a.epoch ==>
              !SamePair(Run(j, ts).forwards[i], Run(j, ts).forwards[m])
  {
    RunStaysCoherent(j, ts);
    var fs := Run(j, ts).forwards;
    assert PassedActively(fs, a.to, a.seqNo, a.epoch);
    i :| 0 <= i < |fs| && ActiveFor(fs[i], a.to, a.seqNo, a.epoch);
    forall m | 0 <= m < |fs| && m != i ensures !ActiveFor(fs[m], a.to, a.seqNo, a.epoch) {
      if ActiveFor(fs[m], a.to, a.seqNo, a.epoch) {
        assert SamePair(fs[i], fs[m]) && SamePair(fs[m], fs[i]);
      }
    }
  }

  // ---------------------------------------------------------------- the spacing of epochs

  /** When the epoch of a forward began and ended bounds its time. */
  predicate Within(f: Passed, clears: seq<int>, now: int) {
    && f.epoch <= |clears| && f.at <= now
    && (f.epoch > 0 ==> clears[f.epoch - 1] <= f.at)
    && (f.epoch < |clears| ==> f.at <= clears[f.epoch])
  }

  ghost predicate AllWithin(fs: seq<Passed>, clears: seq<int>, now: int) {
    && (forall i :: 0 <= i < |fs| ==> Within(fs[i], clears, now))
    && (clears != [] ==> clears[|clears| - 1] <= now)
  }

  ghost predicate FarApart(clears: seq<int>) {
    forall i :: 0 < i < |clears| ==> clears[i] - clears[i - 1] > 2 * CLEANUP_INTERVAL
  }

  /** Without restarts the clearings are those of the cleanup timer. */
  ghost predicate Timely(j: Journal) {
    && AllWithin(j.forwards, j.clears, j.now)
    && (j.resets == 0 ==> FarApart(j.clears))
    && (j.resets == 0 && j.clears != [] ==> j.proto.rel.lastAckCleanup == j.clears[|j.clears| - 1])
  }

  lemma WithinGrows(fs: seq<Passed>, clears: seq<int>, now: int, later: int)
    requires AllWithin(fs, clears, now) && now <= later
    ensures AllWithin(fs, clears, later) && AllWithin(fs, clears + [later], later)
  {
  }

  lemma OneMoreWithin(fs: seq<Passed>, f: Passed, clears: seq<int>, now: int)
    requires AllWithin(fs, clears, now) && f.epoch == |clears| && f.at == now
    ensures AllWithin(fs + [f], clears, now) && AllWithin(fs + [], clears, now)
  {
    assert fs + [] == fs;
    forall i | 0 <= i < |fs + [f]| ensures Within((fs + [f])[i], clears, now) {
      if i < |fs| {
        assert Within(fs[i], clears, now);
      }
    }
  }

  lemma ClearsGrow(clears: seq<int>, now: int)
    requires FarApart(clears) && (clears != [] ==> now > clears[|clears| - 1] + 2 * CLEANUP_INTERVAL)
    ensures FarApart(clears + [now])
  {
  }

  lemma DataStaysTimely(j: Journal, t: Timed)
    requires Started(j.proto) && Timely(j) && j.now <= t.now && t.event.Arrive? && IsData(t.event.packet)
    ensures Timely(Step(j, t))
  {
    DataStep(j, t);
    WithinGrows(j.forwards, j.clears, j.now, t.now);
    var s, from := t.event.packet.header.sequence, t.event.from;
    OneMoreWithin(j.forwards, Passed(from, s, j.proto.sessionActive, |j.clears|, t.now), j.clears, t.now);
  }

  lemma OtherStaysTimely(j: Journal, t: Timed)
    requires Started(j.proto) && KeepsData(j.proto) && Timely(j) && Allowed(t.event) && j.now <= t.now
    requires !(t.event.Arrive? && IsData(t.event.packet))
    ensures Timely(Step(j, t))
  {
    OtherStep(j, t);
    WithinGrows(j.forwards, j.clears, j.now, t.now);
    if j.resets == 0 && EndsEpoch(j.proto, t) && !t.event.ResetAll? {
      ClearsGrow(j.clears, t.now);
    }
  }

  lemma StepStaysTimely(j: Journal, t: Timed)
    requires Started(j.proto) && KeepsData(j.proto) && Timely(j) && Allowed(t.event) && j.now <= t.now
    ensures Timely(Step(j, t))
  {
    if t.event.Arrive? && IsData(t.event.packet) {
      DataStaysTimely(j, t);
    } else {
      OtherStaysTimely(j, t);
    }
  }

  lemma {:induction false} RunStaysTimely(j: Journal, ts: seq<Timed>)
    requires Coherent(j) && Timely(j) && Valid(j.now, ts)
    ensures Timely(Run(j, ts))
    decreases |ts|
  {
    if ts != [] {
      StepKeepsCoherence(j, ts[0]);
      StepStaysTimely(j, ts[0]);
      RunStaysTimely(Step(j, ts[0]), ts[1..]);
    }
  }

  lemma {:induction false} ClearsSpread(clears: seq<int>, a: nat, b: nat)
    requires a <= b < |clears| && FarApart(clears)
    ensures clears[b] - clears[a] >= (b - a) * 10000 && (a < b ==> clears[b] - clears[a] > (b - a) * 10000)
    decreases b
  {
    if a < b {
      ClearsSpread(clears, a, b - 1);
    }
  }

  /** Positions of active forwards of one pair, in the order of the record. */
  ghost predicate Chain(fs: seq<Passed>, at: seq<nat>) {
    && (forall i :: 0 <= i < |at| ==> at[i] < |fs| && fs[at[i]].active)
    && (forall i, j :: 0 <= i < j < |at| ==> at[i] < at[j] && SamePair(fs[at[i]], fs[at[j]]))
  }

  lemma {:induction false} ChainClimbs(fs: seq<Passed>, now: nat, at: seq<nat>, n: nat)
    requires ActiveIsLast(fs) && EpochsGrow(fs, now) && Chain(fs, at) && n < |at|
    ensures fs[at[n]].epoch >= fs[at[0]].epoch + n
  {
    if n > 0 {
      ChainClimbs(fs, now, at, n - 1);
      assert at[n - 1] < at[n] && SamePair(fs[at[n - 1]], fs[at[n]]);
    }
  }

  lemma Spread(first: Passed, last: Passed, clears: seq<int>, now: int, n: nat)
    requires Within(first, clears, now) && Within(last, clears, now) && FarApart(clears)
    requires n >= 3 && last.epoch >= first.epoch + n - 1
    ensures last.at - first.at > (n - 2) * 10000
  {
    ClearsSpread(clears, first.epoch, last.epoch - 1);
  }

  lemma ChainSpreads(fs: seq<Passed>, clears: seq<int>, now: int, at: seq<nat>)
    requires ActiveIsLast(fs) && EpochsGrow(fs, |clears|) && AllWithin(fs, clears, now) && FarApart(clears)
    requires Chain(fs, at) && |at| >= 3
    ensures fs[at[|at| - 1]].at - fs[at[0]].at > (|at| - 2) * 10000
  {
    ChainClimbs(fs, |clears|, at, |at| - 1);
    Spread(fs[at[0]], fs[at[|at| - 1]], clears, now, |at|);
  }

  lemma RunSpaces(j: Journal, ts: seq<Timed>)
    requires Fresh(j) && Valid(j.now, ts) && Run(j, ts).resets == 0
    ensures var r := Run(j, ts);
            ActiveIsLast(r.forwards) && EpochsGrow(r.forwards, |r.clears|)
            && AllWithin(r.forwards, r.clears, r.now) && FarApart(r.clears)
  {
    RunStaysCoherent(j, ts);
    RunStaysTimely(j, ts);
  }

  /** Without restarts, three or more active forwards of the same pair span more than
      (n - 2) * 10000 ms. */
  lemma ActiveForwardsSpread(j: Journal, ts: seq<Timed>, at: seq<nat>)
    requires Fresh(j) && Valid(j.now, ts) && Run(j, ts).resets == 0
    requires Chain(Run(j, ts).forwards, at) && |at| >= 3
    ensures var fs := Run(j, ts).forwards;
            fs[at[|at| - 1]].at - fs[at[0]].at > (|at| - 2) * 10000
  {
    RunSpaces(j, ts);
    var r := Run(j, ts);
    ChainSpreads(r.forwards, r.clears, r.now, at);
  }
}
