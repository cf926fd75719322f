/** How the rover's own handlers lead to a stale sequence number: it gives up a packet, takes
    the base for lost, and restarts its numbers while a copy is still in flight. */
module StaleNumbers {
  import opened Wire
  import opened Codec
  import opened Reliability
  import opened Protocol
  import opened Delivery
  import opened Rovers
  import PacketFates

  // ---------------------------------------------------------------- one tracked packet

  lemma OneKey(k: uint8)
    ensures Sorted({k}) == [k]
  {
    assert {k} - {k} == {};
  }

  /** A check at which the only tracked packet is due. */
  lemma DueTick(p: Proto, k: uint8, info: SentInfo, t: R.Timed)
    requires R.Started(p) && p.rel.sent == map[k := info] && Due(info, t.now) && t.event.RetransmitTick?
    ensures R.Apply(p, t).proto == p.(rel := p.rel.(sent := map[k := Bumped(info, t.now)]))
    ensures R.Apply(p, t).effects == [Send(info.packet, info.recipient)]
  {
    OneKey(k);
    assert p.rel.sent.Keys == {k};
    assert Resent(p.rel.sent, [k], t.now) == [(info.packet, info.recipient)] + Resent(p.rel.sent, [], t.now);
    assert Kept(p.rel.sent, t.now) == map[k := Bumped(info, t.now)];
  }

  /** A check that gives it up. */
  lemma LastTick(p: Proto, k: uint8, info: SentInfo, t: R.Timed)
    requires R.Started(p) && p.rel.sent == map[k := info] && Reported(info, t.now) && t.event.RetransmitTick?
    ensures R.Apply(p, t).proto == p.(rel := p.rel.(sent := map[])) && R.Apply(p, t).effects == []
    ensures RetransmitTimer(p.rel, t.now).notify == [info.recipient]
  {
    OneKey(k);
    assert p.rel.sent.Keys == {k};
    assert Notices(p.rel.sent, [k], t.now) == [info.recipient] + Notices(p.rel.sent, [], t.now);
    assert Resent(p.rel.sent, [k], t.now) == [] + Resent(p.rel.sent, [], t.now);
    assert Kept(p.rel.sent, t.now) == map[];
  }

  // ---------------------------------------------------------------- in the network

  /** Only `x` is in flight, sent `retries` times again, last at `at`. */
  ghost predicate Pending(w: World, x: Packet, at: int, retries: nat) {
    && R.Started(w.rover) && w.toBase == {x} && w.forwarded == {}
    && w.rover.rel.sent == map[0 := SentInfo(x, at, retries, w.rover.base)]
  }

  function Tick(now: int): Timed {
    At(now, 0, AtRover(R.RetransmitTick))
  }

  lemma FirstSend(w: World, t: R.Timed)
    requires Initial(w) && w.rover.current == 0
    requires t.event.SendTo? && R.Allowed(t.event) && t.event.recipient == UNSPECIFIED
    ensures Pending(RoverMoves(w, t), Issued(w.rover, t), t.now, 0)
    ensures RoverMoves(w, t).rover.base == w.rover.base && RoverMoves(w, t).base == w.base
    ensures w.base.rel.acked == map[] ==> FreshNumber(w, 0)
  {
    SendTracks(w.rover, t);
    assert R.Apply(w.rover, t).effects[0] == Send(Issued(w.rover, t), w.rover.base);
    assert RoverMoves(w, t).toBase == {Issued(w.rover, t)};
  }

  /** A check after the timeout sends it again. */
  lemma Again(w: World, x: Packet, at: int, retries: nat, now: int)
    requires Pending(w, x, at, retries) && retries < MAX_RETRIES && now - at > Timeout(retries)
    ensures Pending(Step(w, Tick(now)), x, now, retries + 1) && Step(w, Tick(now)).rover.base == w.rover.base
  {
    var info := SentInfo(x, at, retries, w.rover.base);
    DueTick(w.rover, 0, info, R.At(now, 0, R.RetransmitTick));
    assert Step(w, Tick(now)).toBase == {x};
  }

  /** The last check gives it up, and the base is reported. */
  lemma GiveUp(w: World, x: Packet, at: int, now: int)
    requires Pending(w, x, at, MAX_RETRIES) && now - at > Timeout(MAX_RETRIES) && w.rover.base.port == BASE_PORT
    ensures var n := Step(w, Tick(now));
            && n.rover == w.rover.(rel := w.rover.rel.(sent := map[])) && n.toBase == {x} && n.forwarded == {}
            && RetransmitTimer(w.rover.rel, now).notify == [w.rover.base]
  {
    LastTick(w.rover, 0, SentInfo(x, at, MAX_RETRIES, w.rover.base), R.At(now, 0, R.RetransmitTick));
  }

  /** What the rover does about the report: it takes the base for lost and posts the reset. */
  lemma ReportResets(r: Rover)
    requires r.session.state.ACTIVE? && r.resets == 0
    ensures PostedReset(PacketTimeout(r, r.proto.base)).proto == ResetSequence(r.proto)
  {
  }

  // ---------------------------------------------------------------- the run

  function Last(now: int, ts: seq<Timed>): int {
    if ts == [] then now else ts[|ts| - 1].now
  }

  lemma {:induction false} RunSnoc(w: World, ts: seq<Timed>, t: Timed)
    ensures Run(w, ts + [t]) == Step(Run(w, ts), t)
    decreases |ts|
  {
    if ts == [] {
      assert ts + [t] == [t] && [t][1..] == [];
    } else {
      assert (ts + [t])[1..] == ts[1..] + [t] && (ts + [t])[0] == ts[0];
      RunSnoc(Step(w, ts[0]), ts[1..], t);
    }
  }

  lemma {:induction false} ValidSnoc(w: World, now: int, ts: seq<Timed>, t: Timed)
    requires Valid(w, now, ts) && Last(now, ts) <= t.now && Possible(Run(w, ts), t.event)
    ensures Valid(w, now, ts + [t]) && Run(w, ts + [t]) == Step(Run(w, ts), t)
    decreases |ts|
  {
    RunSnoc(w, ts, t);
    if ts == [] {
      assert ts + [t] == [t] && [t][1..] == [];
    } else {
      assert (ts + [t])[1..] == ts[1..] + [t] && (ts + [t])[0] == ts[0];
      ValidSnoc(Step(w, ts[0]), ts[0].now, ts[1..], t);
    }
  }

  /** A run leads from one world to another, and ends at `at`. */
  ghost predicate Leads(w: World, start: int, run: seq<Timed>, n: World, at: int) {
    Valid(w, start, run) && Run(w, run) == n && Last(start, run) == at
  }

  lemma GoOn(w: World, start: int, run: seq<Timed>, n: World, at: int, t: Timed)
    requires Leads(w, start, run, n, at) && at <= t.now && Possible(n, t.event)
    ensures Leads(w, start, run + [t], Step(n, t), t.now)
  {
    ValidSnoc(w, start, run, t);
  }

  lemma SendRun(w: World, t: R.Timed) returns (run: seq<Timed>, n: World)
    requires Initial(w) && w.rover.current == 0 && w.base.rel.acked == map[]
    requires t.event.SendTo? && R.Allowed(t.event) && t.event.recipient == UNSPECIFIED
    ensures Leads(w, t.now, run, n, t.now)
    ensures Pending(n, Issued(w.rover, t), t.now, 0) && n.rover.base == w.rover.base
  {
    var e := At(t.now, t.ts, AtRover(t.event));
    FirstSend(w, t);
    GoOn(w, t.now, [], w, t.now, e);
    run, n := [] + [e], Step(w, e);
  }

  lemma RepeatRun(w: World, start: int, run: seq<Timed>, m: World, x: Packet, at: int, retries: nat, now: int)
    returns (more: seq<Timed>, n: World)
    requires Leads(w, start, run, m, at) && Pending(m, x, at, retries)
    requires retries < MAX_RETRIES && now - at > Timeout(retries)
    ensures Leads(w, start, more, n, now) && Pending(n, x, now, retries + 1) && n.rover.base == m.rover.base
  {
    Again(m, x, at, retries, now);
    GoOn(w, start, run, m, at, Tick(now));
    more, n := run + [Tick(now)], Step(m, Tick(now));
  }

  lemma GiveUpRun(w: World, start: int, run: seq<Timed>, m: World, x: Packet, at: int, now: int)
    requires Leads(w, start, run, m, at) && Pending(m, x, at, MAX_RETRIES)
    requires now - at > Timeout(MAX_RETRIES) && m.rover.base.port == BASE_PORT
    ensures var n := Step(m, Tick(now));
            && Leads(w, start, run + [Tick(now)], n, now)
            && n.rover == m.rover.(rel := m.rover.rel.(sent := map[])) && n.toBase == {x} && n.forwarded == {}
            && RetransmitTimer(m.rover.rel, now).notify == [m.rover.base]
  {
    GiveUp(m, x, at, now);
    GoOn(w, start, run, m, at, Tick(now));
  }

  function Restart(now: int): Timed {
    At(now, 0, AtRover(R.ResetAll))
  }

  lemma RestartRun(w: World, start: int, run: seq<Timed>, m: World, now: int)
    requires Leads(w, start, run, m, now)
    ensures var n := Step(m, Restart(now));
            && Leads(w, start, run + [Restart(now)], n, now)
            && n.rover == ResetSequence(m.rover) && n.toBase == m.toBase && n.forwarded == m.forwarded
  {
    GoOn(w, start, run, m, now, Restart(now));
    assert m.toBase + SentTo([], m.rover.base) == m.toBase;
  }

  lemma RestartedIsStale(w: World, start: int, run: seq<Timed>, x: Packet, again: R.Timed)
    requires Initial(w) && Valid(w, start, run)
    requires Run(w, run).toBase == {x} && Run(w, run).forwarded == {}
    requires Run(w, run).rover.current == 0 && Run(w, run).rover.rel.sent == map[]
    requires IsData(x) && x.header.sequence == 0
    requires again.event.SendTo? && R.Allowed(again.event) && again.event.recipient == UNSPECIFIED
    requires x.payload != again.event.payload
    ensures var n := Run(w, run);
            && !FreshNumber(n, n.rover.current) && New(n, Issued(n.rover, again))
            && Unsafe(RoverMoves(n, again), again.now)
  {
    RunKeepsInv(w, start, run);
    RestartIsStale(Run(w, run), x, again);
  }

  /** The code reaches a stale number: in an active session a packet sent under number 0 is
      given up after three expired checks, the last of which reports the base; the handler
      posts a reset, and the numbers restart at 0 with the packet still in flight. From there
      a packet can be acknowledged that never arrived. */
  lemma StaleIsReached(w: World, r: Rover, now: int, a: Bytes, b: Bytes) returns (run: seq<Timed>)
    requires Initial(w) && w.rover.current == 0 && w.base.rel.acked == map[] && w.rover.base.port == BASE_PORT
    requires r.session.state.ACTIVE? && r.resets == 0 && a != b
    ensures var end := now + 35003;
            var last, again := run + [Tick(end)], R.At(end, 0, R.SendTo(b, DATA, MEDIUM, UNSPECIFIED));
            var found, given, n := Run(w, run), Run(w, last), Run(w, last + [Restart(end)]);
            && Valid(w, now, last + [Restart(end)])
            && RetransmitTimer(found.rover.rel, end).notify == [given.rover.base]
            && n.rover == PostedReset(PacketTimeout(r.(proto := given.rover), given.rover.base)).proto
            && !FreshNumber(n, n.rover.current) && New(n, Issued(n.rover, again)) && Unsafe(RoverMoves(n, again), end)
  {
    var end := now + 35003;
    var first := R.At(now, 0, R.SendTo(a, DATA, MEDIUM, UNSPECIFIED));
    var x := Issued(w.rover, first);
    PacketFates.TimeoutsAre();
    var w1, w2, w3;
    run, w1 := SendRun(w, first);
    run, w2 := RepeatRun(w, now, run, w1, x, now, 0, now + 5001);
    run, w3 := RepeatRun(w, now, run, w2, x, now + 5001, 1, now + 15002);
    var last := run + [Tick(end)];
    GiveUpRun(w, now, run, w3, x, now + 15002, end);
    RestartRun(w, now, last, Step(w3, Tick(end)), end);
    ReportResets(r.(proto := Run(w, last).rover));
    RestartedIsStale(w, now, last + [Restart(end)], x, R.At(end, 0, R.SendTo(b, DATA, MEDIUM, UNSPECIFIED)));
  }
}
