/** What a rover asks for: every missing number that it did not just ask for, three at a time. */
module GapRequests {
  import opened Wire
  import opened Codec
  import opened Reliability
  import opened ReliabilityFacts
  import opened Protocol
  import opened RoverEvents
  import opened NakSpacing

  // ---------------------------------------------------------------- one check

  /** The numbers not asked for recently, by the table. */
  function Unasked(s: State, missing: seq<uint8>, now: int): (r: seq<uint8>)
    ensures forall x :: x in r <==> x in missing && !RecentlyNaked(s, x, now)
  {
    if missing == [] then []
    else (if RecentlyNaked(s, missing[0], now) then [] else [missing[0]]) + Unasked(s, missing[1..], now)
  }

  function FirstOf(xs: seq<uint8>, limit: nat): (r: seq<uint8>)
    ensures |r| == if |xs| < limit then |xs| else limit
  {
    if |xs| < limit then xs else xs[..limit]
  }

  /** A NAK for each number, to the base, under consecutive numbers. */
  ghost predicate AskedFor(effects: seq<Effect>, p: Proto, numbers: seq<uint8>, ts: bv32) {
    && |effects| == |numbers|
    && forall i :: 0 <= i < |numbers| ==>
         effects[i] == Send(NewPacket(NAK, HIGH, Later(p.current, i), ts, [ToByte(numbers[i])]), p.base)
  }

  ghost predicate NoRepeats(xs: seq<uint8>) {
    forall i, j :: 0 <= i < j < |xs| ==> xs[i] != xs[j]
  }

  /** Asking for one number does not matter to the others. */
  lemma {:induction false} UnaskedElsewhere(s: State, k: uint8, missing: seq<uint8>, now: int)
    requires k !in missing
    ensures Unasked(RecordNak(s, k, now), missing, now) == Unasked(s, missing, now)
  {
    if missing != [] {
      UnaskedElsewhere(s, k, missing[1..], now);
    }
  }

  lemma AskedCons(p: Proto, q: Proto, k: uint8, numbers: seq<uint8>, rest: seq<Effect>, ts: bv32)
    requires q.base == p.base && q.current == Next(p.current) && AskedFor(rest, q, numbers, ts)
    ensures AskedFor([Send(NewPacket(NAK, HIGH, p.current, ts, [ToByte(k)]), p.base)] + rest, p, [k] + numbers, ts)
  {
    var all := [Send(NewPacket(NAK, HIGH, p.current, ts, [ToByte(k)]), p.base)] + rest;
    forall i | 0 <= i < |all|
      ensures all[i] == Send(NewPacket(NAK, HIGH, Later(p.current, i), ts, [ToByte(([k] + numbers)[i])]), p.base)
    {
      if i == 0 {
        LaterNext(p.current, 0);
      } else {
        LaterNext(p.current, i - 1);
        assert all[i] == rest[i - 1];
      }
    }
  }

  lemma FirstCons(k: uint8, xs: seq<uint8>, limit: nat)
    requires limit > 0
    ensures FirstOf([k] + xs, limit) == [k] + FirstOf(xs, limit - 1)
  {
  }

  lemma AskOne(p: Proto, k: uint8, now: int, ts: bv32)
    requires p.rel.role == ROVER
    ensures var r := AskFor(p, k, now, ts);
            && r.proto == p.(current := Next(p.current), rel := RecordNak(p.rel, k, now))
            && r.effects == [Send(NewPacket(NAK, HIGH, p.current, ts, [ToByte(k)]), p.base)]
  {
  }

  /** One turn of the loop that asks. */
  lemma TurnAsks(p: Proto, k: uint8, rest: seq<uint8>, limit: nat, now: int, ts: bv32, more: seq<Effect>)
    requires p.rel.role == ROVER && k !in rest && limit > 0
    requires var q := AskFor(p, k, now, ts).proto;
             AskedFor(more, q, FirstOf(Unasked(q.rel, rest, now), limit - 1), ts)
    ensures AskedFor(AskFor(p, k, now, ts).effects + more, p, FirstOf([k] + Unasked(p.rel, rest, now), limit), ts)
  {
    AskOne(p, k, now, ts);
    UnaskedElsewhere(p.rel, k, rest, now);
    var due := Unasked(p.rel, rest, now);
    FirstCons(k, due, limit);
    AskedCons(p, AskFor(p, k, now, ts).proto, k, FirstOf(due, limit - 1), more, ts);
  }

  lemma UnaskedTurn(s: State, missing: seq<uint8>, now: int)
    requires missing != []
    ensures Unasked(s, missing, now)
         == if RecentlyNaked(s, missing[0], now) then Unasked(s, missing[1..], now)
            else [missing[0]] + Unasked(s, missing[1..], now)
  {
  }

  lemma RestDiffers(xs: seq<uint8>)
    requires xs != [] && NoRepeats(xs)
    ensures NoRepeats(xs[1..]) && xs[0] !in xs[1..]
  {
  }

  /** The loop asks for the first of the numbers that are due. */
  ghost predicate Asks(p: Proto, missing: seq<uint8>, limit: nat, now: int, ts: bv32) {
    AskedFor(AskForAll(p, missing, limit, now, ts).effects, p, FirstOf(Unasked(p.rel, missing, now), limit), ts)
  }

  lemma NothingAsked(p: Proto, missing: seq<uint8>, limit: nat, now: int, ts: bv32)
    requires missing == [] || limit == 0
    ensures Asks(p, missing, limit, now, ts)
  {
  }

  lemma SkippedAsks(p: Proto, missing: seq<uint8>, limit: nat, now: int, ts: bv32)
    requires missing != [] && limit > 0 && RecentlyNaked(p.rel, missing[0], now)
    requires Asks(p, missing[1..], limit, now, ts)
    ensures Asks(p, missing, limit, now, ts)
  {
    UnaskedTurn(p.rel, missing, now);
    AskForAllTurn(p, missing, limit, now, ts);
  }

  lemma AskedAsks(p: Proto, missing: seq<uint8>, limit: nat, now: int, ts: bv32)
    requires missing != [] && limit > 0 && !RecentlyNaked(p.rel, missing[0], now)
    requires p.rel.role == ROVER && missing[0] !in missing[1..]
    requires Asks(AskFor(p, missing[0], now, ts).proto, missing[1..], limit - 1, now, ts)
    ensures Asks(p, missing, limit, now, ts)
  {
    var k, rest := missing[0], missing[1..];
    var more := AskForAll(AskFor(p, k, now, ts).proto, rest, limit - 1, now, ts).effects;
    UnaskedTurn(p.rel, missing, now);
    AskForAllTurn(p, missing, limit, now, ts);
    TurnAsks(p, k, rest, limit, now, ts, more);
  }

  lemma {:induction false} LoopAsks(p: Proto, missing: seq<uint8>, limit: nat, now: int, ts: bv32)
    requires p.rel.role == ROVER && NoRepeats(missing)
    ensures Asks(p, missing, limit, now, ts)
    decreases |missing|
  {
    if missing == [] || limit == 0 {
      NothingAsked(p, missing, limit, now, ts);
    } else {
      RestDiffers(missing);
      if RecentlyNaked(p.rel, missing[0], now) {
        LoopAsks(p, missing[1..], limit, now, ts);
        SkippedAsks(p, missing, limit, now, ts);
      } else {
        AskOne(p, missing[0], now, ts);
        LoopAsks(AskFor(p, missing[0], now, ts).proto, missing[1..], limit - 1, now, ts);
        AskedAsks(p, missing, limit, now, ts);
      }
    }
  }

  // ---------------------------------------------------------------- whole runs

  predicate AskedLately(a: Asked, k: uint8, now: int) {
    a.seqNo == k && now - a.at < 1000
  }

  /** A NAK for the number is on record, less than 1000 ms old. */
  ghost predicate Lately(asked: seq<Asked>, k: uint8, now: int) {
    exists i :: 0 <= i < |asked| && AskedLately(asked[i], k, now)
  }

  /** The table records only NAKs that were sent. */
  ghost predicate TableIsTrue(naks: map<uint8, int>, asked: seq<Asked>) {
    forall k :: k in naks ==> Asked(k, naks[k]) in asked
  }

  lemma TrueAfterAsk(naks: map<uint8, int>, asked: seq<Asked>, k: uint8, now: int)
    requires TableIsTrue(naks, asked)
    ensures TableIsTrue(naks[k := now], asked + [Asked(k, now)])
  {
    assert (asked + [Asked(k, now)])[|asked|] == Asked(k, now);
  }

  lemma {:induction false} LoopKeepsTrue(p: Proto, missing: seq<uint8>, limit: nat, now: int, ts: bv32,
                                         asked: seq<Asked>)
    requires p.rel.role == ROVER && TableIsTrue(p.rel.naks, asked)
    ensures var r := AskForAll(p, missing, limit, now, ts);
            TableIsTrue(r.proto.rel.naks, asked + NaksIn(r.effects, now))
    decreases |missing|
  {
    if missing == [] || limit == 0 {
      assert asked + [] == asked;
    } else if RecentlyNaked(p.rel, missing[0], now) {
      LoopKeepsTrue(p, missing[1..], limit, now, ts, asked);
    } else {
      var k, first := missing[0], AskFor(p, missing[0], now, ts);
      TrueAfterAsk(p.rel.naks, asked, k, now);
      assert NaksIn(first.effects, now) == [Asked(k, now)];
      LoopKeepsTrue(first.proto, missing[1..], limit - 1, now, ts, asked + [Asked(k, now)]);
      ReadTogether(asked, Asked(k, now), first.effects,
                   AskForAll(first.proto, missing[1..], limit - 1, now, ts).effects, now);
    }
  }

  /** The rover's layer when it checks for gaps after a data packet. */
  function Counted(p: Proto, packet: Packet, from: Endpoint, now: int): Proto {
    p.(rel := RecordReceived(p.rel, packet.header.sequence, from, now), checkCounter := Next(p.checkCounter))
  }

  /** The packet passed up is no NAK. */
  lemma PassedIsNoNak(effects: seq<Effect>, packet: Packet, from: Endpoint, now: int)
    ensures NaksIn(effects + [Forward(packet, from)], now) == NaksIn(effects, now)
  {
    NoNaks([Forward(packet, from)], now);
    NaksInConcat(effects, [Forward(packet, from)], now);
    assert NaksIn(effects, now) + [] == NaksIn(effects, now);
  }

  lemma ArrivalKeepsTrue(p: Proto, packet: Packet, from: Endpoint, now: int, ts: bv32, asked: seq<Asked>)
    requires Started(p) && TableIsTrue(p.rel.naks, asked)
    ensures var r := ProcessPacket(p, packet, from, now, ts);
            TableIsTrue(r.proto.rel.naks, asked + NaksIn(r.effects, now))
  {
    assert asked + [] == asked;
    if IsData(packet) {
      var c := Counted(p, packet, from, now);
      LoopKeepsTrue(c, Missing(c.rel, from), MAX_NAKS_PER_CHECK, now, ts, asked);
      PassedIsNoNak(if c.checkCounter % 5 == 0 then CheckGaps(c, from, now, ts).effects else [], packet, from, now);
    }
  }

  lemma StepKeepsTrue(g: Log, t: Timed)
    requires Good(g) && TableIsTrue(g.proto.rel.naks, g.asked) && Allowed(t.event)
    ensures TableIsTrue(Step(g, t).proto.rel.naks, Step(g, t).asked)
  {
    if t.event.Arrive? {
      ArrivalKeepsTrue(g.proto, t.event.packet, t.event.from, t.now, t.ts, g.asked);
    } else if !t.event.ResetAll? {
      OtherStep(g.proto, t);
      assert g.asked + [] == g.asked;
    }
  }

  lemma {:induction false} RunKeepsTrue(g: Log, ts: seq<Timed>)
    requires Good(g) && TableIsTrue(g.proto.rel.naks, g.asked) && Valid(g.now, ts)
    ensures Good(Run(g, ts)) && TableIsTrue(Run(g, ts).proto.rel.naks, Run(g, ts).asked)
    decreases |ts|
  {
    if ts != [] {
      StepStaysGood(g, ts[0]);
      StepKeepsTrue(g, ts[0]);
      RunKeepsTrue(Step(g, ts[0]), ts[1..]);
    }
  }

  /** The table's answer is that of the record of all NAKs sent. */
  lemma TableIsRecord(g: Log, k: uint8, now: int)
    requires Good(g) && TableIsTrue(g.proto.rel.naks, g.asked) && g.now <= now
    ensures RecentlyNaked(g.proto.rel, k, now) <==> Lately(g.asked, k, now)
  {
    var naks := g.proto.rel.naks;
    if RecentlyNaked(g.proto.rel, k, now) {
      var i :| 0 <= i < |g.asked| && g.asked[i] == Asked(k, naks[k]);
      assert AskedLately(g.asked[i], k, now);
    }
    if Lately(g.asked, k, now) {
      var i :| 0 <= i < |g.asked| && AskedLately(g.asked[i], k, now);
      assert NakSpacing.Remembered(naks, g.asked[i], g.now);
    }
  }

  // ---------------------------------------------------------------- the theorem

  /** A number to ask for: one of the sixteen before the largest number received, itself not
      received, and not asked for in the last 1000 ms. */
  ghost predicate Wanted(seen: map<uint8, int>, asked: seq<Asked>, x: uint8, now: int) {
    seen != map[] && 1 <= Distance(Greatest(seen.Keys), x) <= 16 && x !in seen && !Lately(asked, x, now)
  }

  /** All the numbers to ask for, nearest first, each once. */
  ghost predicate IsWantList(seen: map<uint8, int>, asked: seq<Asked>, xs: seq<uint8>, now: int) {
    && (forall x :: x in xs <==> Wanted(seen, asked, x, now))
    && (seen != map[] ==> Nearest(Greatest(seen.Keys), xs))
  }

  lemma {:induction false} UnaskedNearest(s: State, h: uint8, missing: seq<uint8>, now: int)
    requires Nearest(h, missing)
    ensures Nearest(h, Unasked(s, missing, now))
  {
    if missing != [] {
      UnaskedNearest(s, h, missing[1..], now);
      var rest := Unasked(s, missing[1..], now);
      forall j | 0 <= j < |rest| ensures Distance(h, missing[0]) < Distance(h, rest[j]) {
        assert rest[j] in missing[1..];
      }
      NearestCons(h, missing[0], rest);
      assert [] + rest == rest;
    }
  }

  lemma NearestDiffer(h: uint8, xs: seq<uint8>)
    requires Nearest(h, xs)
    ensures NoRepeats(xs)
  {
  }

  lemma UnaskedIsWantList(g: Log, packet: Packet, from: Endpoint, now: int)
    requires Good(g) && TableIsTrue(g.proto.rel.naks, g.asked) && g.now <= now
    ensures var s := Counted(g.proto, packet, from, now).rel;
            && NoRepeats(Missing(s, from))
            && IsWantList(ReceivedFrom(s, from), g.asked, Unasked(s, Missing(s, from), now), now)
  {
    var s := Counted(g.proto, packet, from, now).rel;
    var seen := ReceivedFrom(s, from);
    assert packet.header.sequence in seen;
    MissingExact(s, from);
    var h := Greatest(seen.Keys);
    NearestDiffer(h, Missing(s, from));
    UnaskedNearest(s, h, Missing(s, from), now);
    forall x: uint8 ensures RecentlyNaked(s, x, now) <==> Lately(g.asked, x, now) {
      TableIsRecord(g, x, now);
    }
  }

  /** The effects of a data packet at a rover, once it is known what it wants. */
  ghost predicate AsksAndPasses(effects: seq<Effect>, p: Proto, want: seq<uint8>, packet: Packet, from: Endpoint,
                                ts: bv32) {
    var n := if |want| < 3 then |want| else 3;
    |effects| == n + 1 && AskedFor(effects[..n], p, want[..n], ts) && effects[n] == Forward(packet, from)
  }

  lemma AsksThenPasses(asks: seq<Effect>, p: Proto, want: seq<uint8>, packet: Packet, from: Endpoint, ts: bv32)
    requires AskedFor(asks, p, FirstOf(want, 3), ts)
    ensures AsksAndPasses(asks + [Forward(packet, from)], p, want, packet, from, ts)
  {
    assert (asks + [Forward(packet, from)])[..|asks|] == asks;
    assert FirstOf(want, 3) == want[..|asks|];
  }

  lemma SameAsks(asks: seq<Effect>, p: Proto, q: Proto, want: seq<uint8>, ts: bv32)
    requires AskedFor(asks, q, want, ts) && q.base == p.base && q.current == p.current
    ensures AskedFor(asks, p, want, ts)
  {
  }

  /** One data packet at which the counter comes round. */
  lemma FifthAsks(p: Proto, packet: Packet, from: Endpoint, now: int, ts: bv32)
    requires Started(p) && IsData(packet) && Next(p.checkCounter) % 5 == 0
    requires NoRepeats(Missing(Counted(p, packet, from, now).rel, from))
    ensures var s := Counted(p, packet, from, now).rel;
            AsksAndPasses(ProcessPacket(p, packet, from, now, ts).effects, p, Unasked(s, Missing(s, from), now),
                          packet, from, ts)
  {
    var c := Counted(p, packet, from, now);
    var want := Unasked(c.rel, Missing(c.rel, from), now);
    LoopAsks(c, Missing(c.rel, from), 3, now, ts);
    var asks := CheckGaps(c, from, now, ts).effects;
    SameAsks(asks, p, c, FirstOf(want, 3), ts);
    AsksThenPasses(asks, p, want, packet, from, ts);
  }

  lemma OthersAskNothing(p: Proto, packet: Packet, from: Endpoint, now: int, ts: bv32)
    requires Started(p) && !(IsData(packet) && Next(p.checkCounter) % 5 == 0)
    ensures ProcessPacket(p, packet, from, now, ts).effects == if IsData(packet) then [Forward(packet, from)] else []
  {
  }

  /** What a packet that arrives makes the rover do, if `want` are the numbers it wants. On a
      fifth data packet it asks for the first three of them, each with a NAK of its own to the
      base, under consecutive numbers, and then passes the packet up; any other data packet is
      passed up alone, and a control packet sends nothing. */
  ghost predicate AsksRight(r: Log, t: Timed, want: seq<uint8>, fifth: bool)
    requires t.event.Arrive?
  {
    var packet, from, effects := t.event.packet, t.event.from, Apply(r.proto, t).effects;
    && IsWantList(ReceivedFrom(Counted(r.proto, packet, from, t.now).rel, from), r.asked, want, t.now)
    && if IsData(packet) && fifth then AsksAndPasses(effects, r.proto, want, packet, from, t.ts)
       else effects == if IsData(packet) then [Forward(packet, from)] else []
  }

  /** One packet, whatever run led here. */
  lemma ArrivalAsks(r: Log, t: Timed, fifth: bool) returns (want: seq<uint8>)
    requires Good(r) && TableIsTrue(r.proto.rel.naks, r.asked) && r.now <= t.now && t.event.Arrive?
    requires fifth == (Next(r.proto.checkCounter) % 5 == 0)
    ensures AsksRight(r, t, want, fifth)
  {
    var packet, from := t.event.packet, t.event.from;
    var s := Counted(r.proto, packet, from, t.now).rel;
    UnaskedIsWantList(r, packet, from, t.now);
    want := Unasked(s, Missing(s, from), t.now);
    if IsData(packet) && fifth {
      FifthAsks(r.proto, packet, from, t.now, t.ts);
    } else {
      OthersAskNothing(r.proto, packet, from, t.now, t.ts);
    }
  }

  // ---------------------------------------------------------------- the counter

  predicate DataArrives(t: Timed) {
    t.event.Arrive? && IsData(t.event.packet)
  }

  /** How many data packets arrive in a run. */
  function DataArrivals(ts: seq<Timed>): nat {
    if ts == [] then 0 else (if DataArrives(ts[0]) then 1 else 0) + DataArrivals(ts[1..])
  }

  lemma CounterAfter(p: Proto, t: Timed)
    requires Started(p)
    ensures Apply(p, t).proto.checkCounter == if DataArrives(t) then Next(p.checkCounter) else p.checkCounter
  {
    if DataArrives(t) {
      var c := Counted(p, t.event.packet, t.event.from, t.now);
      AskForAllFrame(c, Missing(c.rel, t.event.from), MAX_NAKS_PER_CHECK, t.now, t.ts);
    }
  }

  lemma CountOne(n: uint8, t: Timed, rest: seq<Timed>)
    ensures Later(if DataArrives(t) then Next(n) else n, DataArrivals(rest)) == Later(n, DataArrivals([t] + rest))
  {
    assert ([t] + rest)[1..] == rest;
    LaterNext(n, DataArrivals(rest));
  }

  /** The counter counts the data packets, modulo 256. */
  lemma {:induction false} CounterCounts(g: Log, ts: seq<Timed>)
    requires Good(g) && Valid(g.now, ts)
    ensures Run(g, ts).proto.checkCounter == Later(g.proto.checkCounter, DataArrivals(ts))
    decreases |ts|
  {
    LaterNext(g.proto.checkCounter, 0);
    if ts != [] {
      StepStaysGood(g, ts[0]);
      CounterAfter(g.proto, ts[0]);
      CounterCounts(Step(g, ts[0]), ts[1..]);
      CountOne(g.proto.checkCounter, ts[0], ts[1..]);
      assert [ts[0]] + ts[1..] == ts;
    }
  }

  /** After `n` data packets, the next one is a fifth by the count. */
  predicate Fifth(start: uint8, n: nat) {
    (start + n + 1) % 256 % 5 == 0
  }

  lemma FifthTurns(start: uint8, n: nat)
    ensures Fifth(start, n) == (Next(Later(start, n)) % 5 == 0)
  {
    assert Next(Later(start, n)) == (start + n + 1) % 256;
  }

  /** In every run of a rover's layer, a packet that arrives makes it ask as follows. On every
      fifth data packet, by a count modulo 256, it asks for the first three of the numbers it
      wants from the sender: exactly those among the sixteen before the largest one received
      that were not received and, by the record of all NAKs sent since the last reset, not
      asked for in the last 1000 ms, nearest first; each with a NAK of its own to the base,
      under consecutive numbers; and then the packet is passed up. Any other data packet is
      passed up alone, and a control packet sends nothing. */
  lemma GapsAreAskedFor(g: Log, ts: seq<Timed>, t: Timed) returns (want: seq<uint8>)
    requires Fresh(g) && Valid(g.now, ts) && Run(g, ts).now <= t.now && t.event.Arrive?
    ensures AsksRight(Run(g, ts), t, want, Fifth(g.proto.checkCounter, DataArrivals(ts)))
  {
    RunKeepsTrue(g, ts);
    CounterCounts(g, ts);
    FifthTurns(g.proto.checkCounter, DataArrivals(ts));
    want := ArrivalAsks(Run(g, ts), t, Fifth(g.proto.checkCounter, DataArrivals(ts)));
  }
}
