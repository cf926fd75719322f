/** Runs of a rover's protocol layer are runs of its reliability manager: what is proved of
    every run of the manager holds under the layer. */
module LayerCalls {
  import opened Pieces
  import opened Wire
  import opened Codec
  import opened Reliability
  import opened ReliabilityFacts
  import opened Protocol
  import opened RoverEvents
  import M = ManagerEvents
  import H = ManagerHistories
  import PacketFates

  // ---------------------------------------------------------------- one event

  function ApplyAll(s: State, es: seq<M.Event>, now: int): State
    decreases |es|
  {
    if es == [] then s else ApplyAll(M.Apply(s, es[0], now), es[1..], now)
  }

  lemma {:induction false} ApplyAllConcat(s: State, a: seq<M.Event>, b: seq<M.Event>, now: int)
    ensures ApplyAll(s, a + b, now) == ApplyAll(ApplyAll(s, a, now), b, now)
    decreases |a|
  {
    if a == [] {
      assert a + b == b;
    } else {
      assert (a + b)[1..] == a[1..] + b;
      ApplyAllConcat(M.Apply(s, a[0], now), a[1..], b, now);
    }
  }

  lemma ApplyOne(s: State, e: M.Event, now: int)
    ensures ApplyAll(s, [e], now) == M.Apply(s, e, now)
  {
  }

  /** A NAK on the wire is a NAK recorded. */
  function NakCall(x: Effect): seq<M.Event> {
    if x.Send? && x.packet.header.kind.NAK? && |x.packet.payload| >= 1
    then [M.NakSent(x.packet.payload[0] as int)] else []
  }

  function NakCalls(effects: seq<Effect>): seq<M.Event> {
    if effects == [] then [] else NakCall(effects[0]) + NakCalls(effects[1..])
  }

  lemma {:induction false} NakCallsConcat(a: seq<Effect>, b: seq<Effect>)
    ensures NakCalls(a + b) == NakCalls(a) + NakCalls(b)
  {
    if a == [] {
      assert a + b == b;
    } else {
      assert (a + b)[1..] == a[1..] + b;
      NakCallsConcat(a[1..], b);
      Associate(NakCall(a[0]), NakCalls(a[1..]), NakCalls(b));
    }
  }

  lemma AskForCalls(p: Proto, k: uint8, now: int, ts: bv32)
    requires p.rel.role == ROVER
    ensures var r := AskFor(p, k, now, ts);
            NakCalls(r.effects) == [M.NakSent(k)] && r.proto.rel == M.Apply(p.rel, M.NakSent(k), now)
  {
  }

  lemma {:induction false} AskForAllCalls(p: Proto, missing: seq<uint8>, limit: nat, now: int, ts: bv32)
    requires p.rel.role == ROVER
    ensures var r := AskForAll(p, missing, limit, now, ts);
            r.proto.rel == ApplyAll(p.rel, NakCalls(r.effects), now)
    decreases |missing|
  {
    if missing != [] && limit > 0 {
      if RecentlyNaked(p.rel, missing[0], now) {
        AskForAllCalls(p, missing[1..], limit, now, ts);
      } else {
        var first := AskFor(p, missing[0], now, ts);
        AskForCalls(p, missing[0], now, ts);
        AskForAllCalls(first.proto, missing[1..], limit - 1, now, ts);
        var rest := AskForAll(first.proto, missing[1..], limit - 1, now, ts);
        NakCallsConcat(first.effects, rest.effects);
        ApplyAllConcat(p.rel, NakCalls(first.effects), NakCalls(rest.effects), now);
        ApplyOne(p.rel, M.NakSent(missing[0]), now);
      }
    }
  }

  /** The calls on the manager that an event of the layer makes. */
  function Calls(p: Proto, t: Timed): seq<M.Event> {
    match t.event
    case Arrive(packet, from) =>
      [M.Heard(packet.header.sequence, from)]
      + (if packet.header.kind.ACK? && |packet.payload| >= 1 then [M.AckFor(packet.payload[0] as int)] else [])
      + NakCalls(Apply(p, t).effects)
    case SendTo(payload, kind, priority, recipient) =>
      [M.Track(p.current, NewPacket(kind, priority, p.current, t.ts, payload),
               if Unspecified(recipient) then p.base else recipient)]
    case RetransmitTick => [M.RetransmitTick]
    case CleanupTick => [M.CleanupTick]
    case ResetAll => [M.ResetAll]
  }

  lemma ForwardMakesNoCall(effects: seq<Effect>, packet: Packet, from: Endpoint)
    ensures NakCalls(effects + [Forward(packet, from)]) == NakCalls(effects)
  {
    NakCallsConcat(effects, [Forward(packet, from)]);
    assert [Forward(packet, from)][1..] == [];
  }

  lemma DataArrivalCalls(p: Proto, packet: Packet, from: Endpoint, now: int, ts: bv32)
    requires Started(p) && IsData(packet)
    ensures var r := ProcessPacket(p, packet, from, now, ts);
            r.proto.rel
            == ApplyAll(M.Apply(p.rel, M.Heard(packet.header.sequence, from), now), NakCalls(r.effects), now)
  {
    var heard := p.(rel := RecordReceived(p.rel, packet.header.sequence, from, now));
    var counted := heard.(checkCounter := Next(p.checkCounter));
    var checked := if counted.checkCounter % 5 == 0 then CheckGaps(counted, from, now, ts) else Outcome(counted, []);
    AskForAllCalls(counted, Missing(counted.rel, from), MAX_NAKS_PER_CHECK, now, ts);
    ForwardMakesNoCall(checked.effects, packet, from);
  }

  lemma ControlArrivalCalls(p: Proto, packet: Packet, from: Endpoint, now: int, ts: bv32)
    requires Started(p) && !IsData(packet)
    ensures var r := ProcessPacket(p, packet, from, now, ts);
            var heard := RecordReceived(p.rel, packet.header.sequence, from, now);
            && r.effects == []
            && r.proto.rel == if packet.header.kind.ACK? && |packet.payload| >= 1
                              then ProcessAck(heard, packet.payload[0] as int) else heard
  {
  }

  lemma ThreeCalls(s: State, a: M.Event, b: seq<M.Event>, c: seq<M.Event>, now: int)
    requires |b| <= 1
    ensures ApplyAll(s, [a] + b + c, now)
         == ApplyAll(if b == [] then M.Apply(s, a, now) else M.Apply(M.Apply(s, a, now), b[0], now), c, now)
  {
    ApplyAllConcat(s, [a] + b, c, now);
    ApplyAllConcat(s, [a], b, now);
    ApplyOne(s, a, now);
    if b != [] {
      assert b == [b[0]];
      ApplyOne(M.Apply(s, a, now), b[0], now);
    }
  }

  lemma LayerDrivesManager(p: Proto, t: Timed)
    requires Started(p) && Allowed(t.event)
    ensures Apply(p, t).proto.rel == ApplyAll(p.rel, Calls(p, t), t.now)
  {
    if t.event.Arrive? {
      var packet, from := t.event.packet, t.event.from;
      ThreeCalls(p.rel, M.Heard(packet.header.sequence, from),
                 if packet.header.kind.ACK? && |packet.payload| >= 1 then [M.AckFor(packet.payload[0] as int)] else [],
                 NakCalls(Apply(p, t).effects), t.now);
      if IsData(packet) {
        DataArrivalCalls(p, packet, from, t.now, t.ts);
      } else {
        ControlArrivalCalls(p, packet, from, t.now, t.ts);
      }
    } else {
      ApplyOne(p.rel, Calls(p, t)[0], t.now);
    }
  }

  // ---------------------------------------------------------------- whole runs

  function RunLayer(p: Proto, ts: seq<Timed>): Proto
    decreases |ts|
  {
    if ts == [] then p else RunLayer(Apply(p, ts[0]).proto, ts[1..])
  }

  function AllAt(now: int, es: seq<M.Event>): (r: seq<M.Timed>)
    ensures |r| == |es| && forall i :: 0 <= i < |es| ==> r[i] == M.At(now, es[i])
  {
    seq(|es|, i requires 0 <= i < |es| => M.At(now, es[i]))
  }

  /** The manager's run under a run of the layer. */
  function RunCalls(p: Proto, ts: seq<Timed>): seq<M.Timed>
    decreases |ts|
  {
    if ts == [] then [] else AllAt(ts[0].now, Calls(p, ts[0])) + RunCalls(Apply(p, ts[0]).proto, ts[1..])
  }

  lemma StaysStarted(p: Proto, t: Timed)
    requires Started(p)
    ensures Started(Apply(p, t).proto)
  {
    if t.event.Arrive? {
      ArrivalFrame(p, t.event.packet, t.event.from, t.now, t.ts);
    }
  }

  lemma {:induction false} CallsAreRun(s: State, es: seq<M.Event>, now: int)
    ensures M.Run(s, AllAt(now, es)) == ApplyAll(s, es, now)
    decreases |es|
  {
    if es != [] {
      assert AllAt(now, es)[1..] == AllAt(now, es[1..]);
      CallsAreRun(M.Apply(s, es[0], now), es[1..], now);
    }
  }

  /** Every run of the layer is a run of its manager, so what is proved of all runs of the
      manager holds under the layer. */
  lemma {:induction false} LayerRunIsManagerRun(p: Proto, ts: seq<Timed>)
    requires Started(p) && forall i :: 0 <= i < |ts| ==> Allowed(ts[i].event)
    ensures M.Run(p.rel, RunCalls(p, ts)) == RunLayer(p, ts).rel
    decreases |ts|
  {
    if ts != [] {
      var t := ts[0];
      assert Allowed(t.event);
      LayerDrivesManager(p, t);
      StaysStarted(p, t);
      CallsAreRun(p.rel, Calls(p, t), t.now);
      M.RunConcat(p.rel, AllAt(t.now, Calls(p, t)), RunCalls(Apply(p, t).proto, ts[1..]));
      LayerRunIsManagerRun(Apply(p, t).proto, ts[1..]);
    }
  }

  // ---------------------------------------------------------------- the clock

  lemma {:induction false} CallsMonotone(before: int, now: int, es: seq<M.Event>, rest: seq<M.Timed>)
    requires before <= now && M.Monotone(now, rest)
    ensures M.Monotone(before, AllAt(now, es) + rest)
    decreases |es|
  {
    var all := AllAt(now, es) + rest;
    if es == [] {
      assert all == rest;
    } else {
      assert all[1..] == AllAt(now, es[1..]) + rest;
      CallsMonotone(now, now, es[1..], rest);
    }
  }

  lemma {:induction false} RunCallsMonotone(p: Proto, now: int, ts: seq<Timed>)
    requires Valid(now, ts)
    ensures M.Monotone(now, RunCalls(p, ts))
    decreases |ts|
  {
    if ts != [] {
      RunCallsMonotone(Apply(p, ts[0]).proto, ts[0].now, ts[1..]);
      CallsMonotone(now, ts[0].now, Calls(p, ts[0]), RunCalls(Apply(p, ts[0]).proto, ts[1..]));
    }
  }

  /** In every run of the layer, the tracked packets are exactly the live ones of the record,
      and each packet ever tracked keeps to the backoff schedule: at most two resends, the
      k-th later than 5000*(2^k - 1) ms after tracking, abandoned later than 35000 ms after. */
  lemma LayerKeepsSchedule(p: Proto, g: PacketFates.Ledger, ts: seq<Timed>)
    requires Started(p) && g.state == p.rel && PacketFates.Fresh(g) && Valid(g.now, ts)
    ensures var r := PacketFates.Run(g, RunCalls(p, ts));
            && r.state == RunLayer(p, ts).rel && M.Monotone(g.now, RunCalls(p, ts)) && PacketFates.Indexed(r)
            && forall l :: l in r.lives ==> PacketFates.NotBefore(l)
  {
    ValidAllows(g.now, ts);
    LayerRunIsManagerRun(p, ts);
    PacketFates.StateFollows(g, RunCalls(p, ts));
    RunCallsMonotone(p, g.now, ts);
    PacketFates.EveryPacketHasOneFate(g, RunCalls(p, ts));
    forall l | l in PacketFates.Run(g, RunCalls(p, ts)).lives ensures PacketFates.NotBefore(l) {
      PacketFates.BackoffLowerBounds(g, RunCalls(p, ts), l);
    }
  }

  /** From a ledger in order, be it empty or in mid-traffic: if the manager's last check is
      never more than `d` old, every packet of the layer is abandoned within 35000 + 3d ms of
      tracking, and none is tracked longer. */
  lemma LayerKeepsDeadlines(p: Proto, g: PacketFates.Ledger, ts: seq<Timed>, d: nat)
    requires Started(p) && g.state == p.rel && Valid(g.now, ts)
    requires PacketFates.Indexed(g) && PacketFates.Scheduled(g) && PacketFates.AllPrompt(g, d)
    requires PacketFates.Timely(g, RunCalls(p, ts), d)
    ensures var r := PacketFates.Run(g, RunCalls(p, ts));
            forall l :: l in r.lives ==>
              && (l.fate.Abandoned? ==> l.fate.at <= l.born + 35000 + 3 * d)
              && (l.fate.Live? && r.now - r.lastCheck <= d ==> r.now <= l.born + 35000 + 3 * d)
  {
    RunCallsMonotone(p, g.now, ts);
    forall l | l in PacketFates.Run(g, RunCalls(p, ts)).lives
      ensures var r := PacketFates.Run(g, RunCalls(p, ts));
              && (l.fate.Abandoned? ==> l.fate.at <= l.born + 35000 + 3 * d)
              && (l.fate.Live? && r.now - r.lastCheck <= d ==> r.now <= l.born + 35000 + 3 * d)
    {
      PacketFates.UpperBoundsFrom(g, RunCalls(p, ts), d, l);
    }
  }

  /** In every run of the layer, the pruned NAK table answers as the full record of the NAKs
      since the last reset does. */
  lemma LayerNakCacheAgrees(p: Proto, h: H.History, ts: seq<Timed>, k: uint8, now: int)
    requires Started(p) && h.state == p.rel && H.Fresh(h) && Valid(h.now, ts)
    requires H.Run(h, RunCalls(p, ts)).now <= now
    ensures var naked := H.Run(h, RunCalls(p, ts)).naked;
            RecentlyNaked(RunLayer(p, ts).rel, k, now) <==> k in naked && now - naked[k] < 1000
  {
    ValidAllows(h.now, ts);
    LayerRunIsManagerRun(p, ts);
    H.StateFollows(h, RunCalls(p, ts));
    RunCallsMonotone(p, h.now, ts);
    H.NakCacheAgrees(h, RunCalls(p, ts), k, now);
  }

  /** In every run of the layer, a number heard from a sender within the last 30000 ms, since
      the last reset, is not reported missing for that sender. */
  lemma LayerHeardIsNotMissing(p: Proto, h: H.History, ts: seq<Timed>, sender: Endpoint, k: uint8)
    requires Started(p) && h.state == p.rel && H.Fresh(h) && Valid(h.now, ts)
    requires var r := H.Run(h, RunCalls(p, ts));
             (sender, k) in r.heard && r.now - r.heard[(sender, k)] <= 30000
    ensures k !in Missing(RunLayer(p, ts).rel, sender)
  {
    ValidAllows(h.now, ts);
    LayerRunIsManagerRun(p, ts);
    H.StateFollows(h, RunCalls(p, ts));
    RunCallsMonotone(p, h.now, ts);
    H.HeardIsNotMissing(h, RunCalls(p, ts), sender, k);
  }

  /** In every run of the layer, the numbers reported missing for a sender are exactly those
      the record of arrivals says: among the sixteen before the largest one retained, and not
      retained. */
  lemma LayerMissingByRecord(p: Proto, h: H.History, ts: seq<Timed>, sender: Endpoint, x: uint8)
    requires Started(p) && h.state == p.rel && H.Fresh(h) && Valid(h.now, ts)
    ensures var r := H.Run(h, RunCalls(p, ts));
            var kept := H.RetainedFrom(r, sender);
            x in Missing(RunLayer(p, ts).rel, sender) <==>
            kept != {} && 1 <= Distance(Greatest(kept), x) <= 16 && !H.Retained(r, sender, x)
  {
    ValidAllows(h.now, ts);
    LayerRunIsManagerRun(p, ts);
    H.StateFollows(h, RunCalls(p, ts));
    RunCallsMonotone(p, h.now, ts);
    H.MissingByRecord(h, RunCalls(p, ts), sender, x);
  }

  lemma {:induction false} ValidAllows(now: int, ts: seq<Timed>)
    requires Valid(now, ts)
    ensures forall i :: 0 <= i < |ts| ==> Allowed(ts[i].event)
    decreases |ts|
  {
    if ts != [] {
      ValidAllows(ts[0].now, ts[1..]);
      forall i | 0 <= i < |ts| ensures Allowed(ts[i].event) {
        if i > 0 {
          assert ts[i] == ts[1..][i - 1];
        }
      }
    }
  }
}
