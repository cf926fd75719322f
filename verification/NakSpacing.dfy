/** Whole runs of a rover: how often it asks for a missing number. */
module NakSpacing {
  import opened Pieces
  import opened Wire
  import opened Codec
  import opened Reliability
  import opened ReliabilityFacts
  import opened Protocol
  import opened RoverEvents

  datatype Asked = Asked(seqNo: uint8, at: int)

  /** The layer and the NAKs it put on the wire since the last reset. */
  datatype Log = Log(proto: Proto, now: int, asked: seq<Asked>)

  function NakOf(x: Effect, now: int): seq<Asked> {
    if x.Send? && x.packet.header.kind.NAK? && |x.packet.payload| >= 1
    then [Asked(x.packet.payload[0] as int, now)] else []
  }

  function NaksIn(effects: seq<Effect>, now: int): seq<Asked> {
    if effects == [] then [] else NakOf(effects[0], now) + NaksIn(effects[1..], now)
  }

  function Step(g: Log, t: Timed): Log {
    var r := Apply(g.proto, t);
    Log(r.proto, t.now, if t.event.ResetAll? then [] else g.asked + NaksIn(r.effects, t.now))
  }

  function Run(g: Log, ts: seq<Timed>): Log
    decreases |ts|
  {
    if ts == [] then g else Run(Step(g, ts[0]), ts[1..])
  }

  predicate Fresh(g: Log) {
    Started(g.proto) && g.proto.rel.sent == map[] && g.proto.rel.naks == map[] && g.asked == []
  }

  // ---------------------------------------------------------------- reading the effects

  lemma {:induction false} NaksInConcat(a: seq<Effect>, b: seq<Effect>, now: int)
    ensures NaksIn(a + b, now) == NaksIn(a, now) + NaksIn(b, now)
  {
    if a == [] {
      assert a + b == b;
    } else {
      assert (a + b)[1..] == a[1..] + b;
      NaksInConcat(a[1..], b, now);
      Associate(NakOf(a[0], now), NaksIn(a[1..], now), NaksIn(b, now));
    }
  }

  lemma {:induction false} NaksAtMost(a: seq<Effect>, now: int)
    ensures |NaksIn(a, now)| <= |a|
  {
    if a != [] {
      NaksAtMost(a[1..], now);
    }
  }

  lemma {:induction false} NoNaks(a: seq<Effect>, now: int)
    requires forall i :: 0 <= i < |a| ==> NakOf(a[i], now) == []
    ensures NaksIn(a, now) == []
  {
    if a != [] {
      NoNaks(a[1..], now);
    }
  }

  // ---------------------------------------------------------------- the spacing

  predicate Apart(a: Asked, b: Asked) {
    a.seqNo == b.seqNo ==> b.at - a.at >= NAK_DEBOUNCE_TIME
  }

  ghost predicate Spaced(asked: seq<Asked>) {
    forall i, j :: 0 <= i < j < |asked| ==> Apart(asked[i], asked[j])
  }

  /** A NAK the table accounts for, or one too old to need that. */
  predicate Remembered(naks: map<uint8, int>, a: Asked, now: int) {
    a.at <= now && ((a.seqNo in naks && a.at <= naks[a.seqNo]) || now - a.at > 2 * NAK_DEBOUNCE_TIME)
  }

  ghost predicate Consistent(naks: map<uint8, int>, asked: seq<Asked>, now: int) {
    Spaced(asked) && forall i :: 0 <= i < |asked| ==> Remembered(naks, asked[i], now)
  }

  lemma LaterKeeps(naks: map<uint8, int>, asked: seq<Asked>, now: int, later: int)
    requires Consistent(naks, asked, now) && now <= later
    ensures Consistent(naks, asked, later) && Consistent(Young(naks, later, 2 * NAK_DEBOUNCE_TIME), asked, later)
  {
  }

  lemma FirstAsk(p: Proto, k: uint8, now: int, ts: bv32, asked: seq<Asked>)
    requires p.rel.role == ROVER && Consistent(p.rel.naks, asked, now) && !RecentlyNaked(p.rel, k, now)
    ensures var r := AskFor(p, k, now, ts);
            && r.proto.rel.role == ROVER && NaksIn(r.effects, now) == [Asked(k, now)]
            && Consistent(r.proto.rel.naks, asked + [Asked(k, now)], now)
  {
  }

  lemma ReadTogether(asked: seq<Asked>, a: Asked, first: seq<Effect>, rest: seq<Effect>, now: int)
    requires NaksIn(first, now) == [a]
    ensures NaksIn(first + rest, now) == [a] + NaksIn(rest, now)
    ensures asked + NaksIn(first + rest, now) == asked + [a] + NaksIn(rest, now)
  {
    NaksInConcat(first, rest, now);
    Associate(asked, [a], NaksIn(rest, now));
  }

  lemma {:induction false} AskForAllKeeps(p: Proto, missing: seq<uint8>, limit: nat, now: int, ts: bv32,
                                          asked: seq<Asked>)
    requires p.rel.role == ROVER && Consistent(p.rel.naks, asked, now)
    ensures var r := AskForAll(p, missing, limit, now, ts);
            Consistent(r.proto.rel.naks, asked + NaksIn(r.effects, now), now)
    decreases |missing|
  {
    if missing == [] || limit == 0 {
      assert asked + [] == asked;
    } else if RecentlyNaked(p.rel, missing[0], now) {
      AskForAllKeeps(p, missing[1..], limit, now, ts, asked);
    } else {
      var first := AskFor(p, missing[0], now, ts);
      FirstAsk(p, missing[0], now, ts, asked);
      AskForAllKeeps(first.proto, missing[1..], limit - 1, now, ts, asked + [Asked(missing[0], now)]);
      var rest := AskForAll(first.proto, missing[1..], limit - 1, now, ts);
      ReadTogether(asked, Asked(missing[0], now), first.effects, rest.effects, now);
    }
  }

  /** A packet arriving at a rover: at most three NAKs, none too soon. */
  lemma ArrivalKeeps(p: Proto, packet: Packet, from: Endpoint, now: int, ts: bv32, asked: seq<Asked>)
    requires Started(p) && Consistent(p.rel.naks, asked, now)
    ensures var r := ProcessPacket(p, packet, from, now, ts);
            && Consistent(r.proto.rel.naks, asked + NaksIn(r.effects, now), now)
            && |NaksIn(r.effects, now)| <= MAX_NAKS_PER_CHECK
  {
    var heard := p.(rel := RecordReceived(p.rel, packet.header.sequence, from, now));
    var counted := heard.(checkCounter := Next(p.checkCounter));
    var r := ProcessPacket(p, packet, from, now, ts);
    if !IsData(packet) {
      assert r.effects == [] && asked + [] == asked;
    } else {
      var checked := if counted.checkCounter % 5 == 0 then CheckGaps(counted, from, now, ts) else Outcome(counted, []);
      AskForAllKeeps(counted, Missing(counted.rel, from), MAX_NAKS_PER_CHECK, now, ts, asked);
      AskForAllFrame(counted, Missing(counted.rel, from), MAX_NAKS_PER_CHECK, now, ts);
      NaksAtMost(checked.effects, now);
      assert asked + [] == asked;
      NoNaks([Forward(packet, from)], now);
      NaksInConcat(checked.effects, [Forward(packet, from)], now);
      assert NaksIn(checked.effects, now) + [] == NaksIn(checked.effects, now);
    }
  }

  lemma RetransmitSendsData(p: Proto, t: Timed)
    requires Started(p) && KeepsData(p) && t.event.RetransmitTick?
    ensures NaksIn(Apply(p, t).effects, t.now) == [] && KeepsData(Apply(p, t).proto)
  {
    ResendExact(p.rel, t.now);
    NoNaks(Apply(p, t).effects, t.now);
  }

  /** Every other event sends no NAK. */
  lemma OtherStep(p: Proto, t: Timed)
    requires Started(p) && KeepsData(p) && Allowed(t.event) && !t.event.Arrive? && !t.event.ResetAll?
    ensures var r := Apply(p, t);
            && NaksIn(r.effects, t.now) == [] && Started(r.proto) && KeepsData(r.proto)
            && r.proto.rel.naks
               == (if t.event.CleanupTick? then Young(p.rel.naks, t.now, 2 * NAK_DEBOUNCE_TIME) else p.rel.naks)
  {
    if t.event.RetransmitTick? {
      RetransmitSendsData(p, t);
    } else if t.event.SendTo? {
      assert IsData(NewPacket(t.event.kind, t.event.priority, p.current, t.ts, t.event.payload));
      NoNaks(Apply(p, t).effects, t.now);
    }
  }

  // ---------------------------------------------------------------- whole runs

  ghost predicate Good(g: Log) {
    Started(g.proto) && KeepsData(g.proto) && Consistent(g.proto.rel.naks, g.asked, g.now)
  }

  lemma StepStaysGood(g: Log, t: Timed)
    requires Good(g) && g.now <= t.now && Allowed(t.event)
    ensures Good(Step(g, t))
    ensures !t.event.ResetAll? ==> g.asked <= Step(g, t).asked && |Step(g, t).asked| <= |g.asked| + MAX_NAKS_PER_CHECK
  {
    LaterKeeps(g.proto.rel.naks, g.asked, g.now, t.now);
    if t.event.Arrive? {
      ArrivalKeeps(g.proto, t.event.packet, t.event.from, t.now, t.ts, g.asked);
      ArrivalFrame(g.proto, t.event.packet, t.event.from, t.now, t.ts);
    } else if !t.event.ResetAll? {
      OtherStep(g.proto, t);
      assert g.asked + [] == g.asked;
    }
  }

  lemma {:induction false} RunStaysGood(g: Log, ts: seq<Timed>)
    requires Good(g) && Valid(g.now, ts)
    ensures Good(Run(g, ts))
    decreases |ts|
  {
    if ts != [] {
      StepStaysGood(g, ts[0]);
      RunStaysGood(Step(g, ts[0]), ts[1..]);
    }
  }

  /** In every run, between two resets, two NAKs for the same number are at least 1000 ms
      apart, and no event makes the rover send more than three. */
  lemma NaksAreSpaced(g: Log, ts: seq<Timed>, t: Timed)
    requires Fresh(g) && Valid(g.now, ts) && Run(g, ts).now <= t.now && Allowed(t.event)
    ensures forall i, j :: 0 <= i < j < |Run(g, ts).asked| && Run(g, ts).asked[i].seqNo == Run(g, ts).asked[j].seqNo
              ==> Run(g, ts).asked[j].at - Run(g, ts).asked[i].at >= 1000
    ensures !t.event.ResetAll? ==> |Step(Run(g, ts), t).asked| <= |Run(g, ts).asked| + 3
  {
    RunStaysGood(g, ts);
    StepStaysGood(Run(g, ts), t);
    var asked := Run(g, ts).asked;
    forall i, j | 0 <= i < j < |asked| && asked[i].seqNo == asked[j].seqNo ensures asked[j].at - asked[i].at >= 1000 {
      assert Apart(asked[i], asked[j]);
    }
  }
}
