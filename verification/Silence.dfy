/** What a SESSION_INIT from another rover does to the connected one: the base stays in its
    session but never acknowledges again, so the rover gives up packet after packet, while
    its probes are answered as if all were well. */
module Silence {
  import opened Wire
  import opened Codec
  import opened Commands
  import opened Protocol
  import S = BaseStations
  import D = Delivery
  import R = RoverEvents
  import B = BaseEvents
  import L = LayerCalls
  import M = ManagerEvents
  import PacketFates

  /** Rover and base over the network, and the base's session above its layer. */
  datatype Joint = Joint(world: D.World, station: S.Base)

  datatype Event =
    /** A command reaches the base station. */
    | Command(command: Command, id: string, from: Endpoint)
    /** Anything else at either party or in the network. */
    | Net(event: D.Event)

  datatype Timed = At(now: int, ts: bv32, event: Event)

  /** A command sets the layer's flag as the session decides. */
  function ToNet(j: Joint, t: Timed): D.Timed {
    match t.event
    case Command(c, id, from) => D.At(t.now, t.ts, D.AtBase(B.SetActive(S.Route(j.station, c, id, from).base.flag)))
    case Net(e) => D.At(t.now, t.ts, e)
  }

  function Step(j: Joint, t: Timed): Joint {
    Joint(D.Step(j.world, ToNet(j, t)),
          if t.event.Command? then S.Route(j.station, t.event.command, t.event.id, t.event.from).base else j.station)
  }

  function Run(j: Joint, ts: seq<Timed>): Joint
    decreases |ts|
  {
    if ts == [] then j else Run(Step(j, ts[0]), ts[1..])
  }

  /** Commands of any kind from anyone, except the connected rover from another endpoint; the
      layer's flag is set by the session alone. */
  predicate Allowed(j: Joint, e: Event) {
    match e
    case Command(c, id, from) => !S.Ends(j.station, S.Hear(c, id, from))
    case Net(e) => D.Honest(j.world, e) && !(e.AtBase? && e.base.SetActive?)
  }

  predicate Valid(j: Joint, now: int, ts: seq<Timed>)
    decreases |ts|
  {
    ts == [] || (now <= ts[0].now && Allowed(j, ts[0].event) && Valid(Step(j, ts[0]), ts[0].now, ts[1..]))
  }

  // ---------------------------------------------------------------- no acknowledgement

  /** The acknowledgements among some packets. */
  function Acks(packets: set<Packet>): set<Packet> {
    set a | a in packets && a.header.kind.ACK?
  }

  /** An active session without its flag. */
  ghost predicate Silent(j: Joint) {
    && S.Sane(j.station) && j.station.state.ACTIVE? && !j.station.flag
    && B.Started(j.world.base) && KeepsData(j.world.base) && !j.world.base.sessionActive
    && R.Started(j.world.rover)
  }

  /** A session whose flag and layer agree, in which traffic may be under way. */
  ghost predicate Regular(j: Joint) {
    && S.Sane(j.station) && j.world.base.sessionActive == j.station.flag
    && B.Started(j.world.base) && KeepsData(j.world.base) && R.Started(j.world.rover)
  }

  /** One INIT from another rover silences an active session. */
  lemma ForeignInitSilences(j: Joint, t: Timed)
    requires Regular(j) && j.station.state.ACTIVE?
    requires t.event.Command? && t.event.command.SESSION_INIT? && t.event.id != j.station.roverId
    ensures Silent(Step(j, t)) && Step(j, t).station == j.station.(flag := false)
    ensures Step(j, t).world.rover == j.world.rover && Step(j, t).world.toRover == j.world.toRover
  {
    assert D.BaseMoves(j.world, B.At(t.now, t.ts, B.SetActive(false))).toRover == j.world.toRover;
  }

  lemma CommandChangesNothing(b: S.Base, c: Command, id: string, from: Endpoint)
    requires S.Sane(b) && b.state.ACTIVE? && !b.flag && !S.Ends(b, S.Hear(c, id, from))
    ensures S.Route(b, c, id, from).base == b
  {
  }

  lemma SilentBaseSendsNoAck(p: Proto, t: B.Timed)
    requires B.Started(p) && KeepsData(p) && !p.sessionActive && B.Allowed(t.event)
    requires t.event.SetActive? ==> !t.event.active
    ensures var r := B.Apply(p, t);
            && KeepsData(r.proto) && !r.proto.sessionActive
            && (forall a, to :: Send(a, to) in r.effects ==> !a.header.kind.ACK?)
  {
    if t.event.Arrive? && IsData(t.event.packet) {
      B.DataEffects(p, t.event.packet, t.event.from, t.now, t.ts);
    } else {
      B.OtherEffects(p, t);
    }
  }

  lemma BaseStaysSilent(w: D.World, t: B.Timed)
    requires B.Started(w.base) && KeepsData(w.base) && !w.base.sessionActive
    requires B.Allowed(t.event) && (t.event.SetActive? ==> !t.event.active)
    ensures var w' := D.BaseMoves(w, t);
            B.Started(w'.base) && KeepsData(w'.base) && !w'.base.sessionActive && Acks(w'.toRover) <= Acks(w.toRover)
  {
    B.StaysStarted(w.base, t);
    SilentBaseSendsNoAck(w.base, t);
  }

  lemma StepStaysSilent(j: Joint, t: Timed)
    requires Silent(j) && Allowed(j, t.event)
    ensures Silent(Step(j, t)) && Step(j, t).station == j.station
    ensures Acks(Step(j, t).world.toRover) <= Acks(j.world.toRover)
  {
    match t.event
    case Command(c, id, from) =>
      CommandChangesNothing(j.station, c, id, from);
      BaseStaysSilent(j.world, B.At(t.now, t.ts, B.SetActive(false)));
    case Net(e) =>
      match e {
        case AtRover(r) => L.StaysStarted(j.world.rover, R.At(t.now, t.ts, r));
        case ReachRover(p) => L.StaysStarted(j.world.rover, R.At(t.now, t.ts, R.Arrive(p, j.world.rover.base)));
        case AtBase(b) => BaseStaysSilent(j.world, B.At(t.now, t.ts, b));
        case ReachBase(p) => BaseStaysSilent(j.world, B.At(t.now, t.ts, B.Arrive(p, j.world.roverEnd)));
        case Lose(_, _) =>
      }
  }

  lemma {:induction false} RunStaysSilent(j: Joint, now: int, ts: seq<Timed>)
    requires Silent(j) && Valid(j, now, ts)
    ensures Silent(Run(j, ts)) && Run(j, ts).station == j.station
    ensures Acks(Run(j, ts).world.toRover) <= Acks(j.world.toRover)
    decreases |ts|
  {
    if ts != [] {
      StepStaysSilent(j, ts[0]);
      RunStaysSilent(Step(j, ts[0]), ts[0].now, ts[1..]);
    }
  }

  // ---------------------------------------------------------------- the rover's side

  /** What an event is to the rover's layer. */
  function RoverSide(j: Joint, t: Timed): seq<R.Timed> {
    if !t.event.Net? then []
    else
      match t.event.event
      case AtRover(e) => [R.At(t.now, t.ts, e)]
      case ReachRover(p) => [R.At(t.now, t.ts, R.Arrive(p, j.world.rover.base))]
      case _ => []
  }

  function RoverRun(j: Joint, ts: seq<Timed>): seq<R.Timed>
    decreases |ts|
  {
    if ts == [] then [] else RoverSide(j, ts[0]) + RoverRun(Step(j, ts[0]), ts[1..])
  }

  /** An acknowledgement that arrives is one of `acks`. */
  predicate KnownAck(t: R.Timed, acks: set<Packet>) {
    t.event.Arrive? && t.event.packet.header.kind.ACK? ==> t.event.packet in acks
  }

  ghost predicate AllKnown(rs: seq<R.Timed>, acks: set<Packet>) {
    forall i :: 0 <= i < |rs| ==> KnownAck(rs[i], acks)
  }

  /** A run of the rover's layer that begins with the events of one step. */
  lemma Prepend(p: Proto, side: seq<R.Timed>, rest: seq<R.Timed>, now: int, later: int, acks: set<Packet>)
    requires now <= later && R.Valid(later, rest) && AllKnown(rest, acks) && |side| <= 1
    requires side != [] ==> side[0].now == later && R.Allowed(side[0].event) && KnownAck(side[0], acks)
    ensures R.Valid(now, side + rest) && AllKnown(side + rest, acks)
    ensures L.RunLayer(p, side + rest) == L.RunLayer(if side == [] then p else R.Apply(p, side[0]).proto, rest)
  {
    if side == [] {
      assert side + rest == rest;
      Earlier(now, later, rest);
    } else {
      assert (side + rest)[1..] == rest && (side + rest)[0] == side[0];
    }
  }

  lemma Earlier(now: int, later: int, rs: seq<R.Timed>)
    requires now <= later && R.Valid(later, rs)
    ensures R.Valid(now, rs)
  {
  }

  /** What one step is to the rover. */
  lemma SideIsStep(j: Joint, t: Timed)
    requires Silent(j) && Allowed(j, t.event)
    ensures var side := RoverSide(j, t);
            && |side| <= 1
            && (side != [] ==>
                  && side[0].now == t.now && R.Allowed(side[0].event) && KnownAck(side[0], Acks(j.world.toRover)))
            && Step(j, t).world.rover == if side == [] then j.world.rover else R.Apply(j.world.rover, side[0]).proto
  {
  }

  lemma {:induction false} RoverRunIsLayerRun(j: Joint, now: int, ts: seq<Timed>, acks: set<Packet>)
    requires Silent(j) && Valid(j, now, ts) && Acks(j.world.toRover) <= acks
    ensures R.Valid(now, RoverRun(j, ts)) && AllKnown(RoverRun(j, ts), acks)
    ensures L.RunLayer(j.world.rover, RoverRun(j, ts)) == Run(j, ts).world.rover
    decreases |ts|
  {
    if ts != [] {
      var t, n := ts[0], Step(j, ts[0]);
      StepStaysSilent(j, t);
      SideIsStep(j, t);
      RoverRunIsLayerRun(n, t.now, ts[1..], acks);
      Prepend(j.world.rover, RoverSide(j, t), RoverRun(n, ts[1..]), now, t.now, acks);
    }
  }

  /** One of the acknowledgements bears the number. */
  ghost predicate Borne(acks: set<Packet>, k: uint8) {
    exists a :: a in acks && D.AcksNumber(a, k)
  }

  ghost predicate CallsKnown(es: seq<M.Event>, acks: set<Packet>) {
    forall i :: 0 <= i < |es| && es[i].AckFor? ==> Borne(acks, es[i].seqNo)
  }

  lemma {:induction false} NakCallsAck(effects: seq<Effect>, acks: set<Packet>)
    ensures CallsKnown(L.NakCalls(effects), acks)
  {
    if effects != [] {
      NakCallsAck(effects[1..], acks);
    }
  }

  lemma EventCalls(p: Proto, t: R.Timed, acks: set<Packet>)
    requires KnownAck(t, acks)
    ensures CallsKnown(L.Calls(p, t), acks)
  {
    if t.event.Arrive? {
      NakCallsAck(R.Apply(p, t).effects, acks);
      var x := t.event.packet;
      if x.header.kind.ACK? && |x.payload| >= 1 {
        assert D.AcksNumber(x, x.payload[0] as int);
      }
    }
  }

  ghost predicate TimedKnown(ms: seq<M.Timed>, acks: set<Packet>) {
    forall i :: 0 <= i < |ms| && ms[i].event.AckFor? ==> Borne(acks, ms[i].event.seqNo)
  }

  lemma TimedConcat(es: seq<M.Event>, now: int, rest: seq<M.Timed>, acks: set<Packet>)
    requires CallsKnown(es, acks) && TimedKnown(rest, acks)
    ensures TimedKnown(L.AllAt(now, es) + rest, acks)
  {
  }

  lemma {:induction false} RunCallsKnown(p: Proto, rs: seq<R.Timed>, acks: set<Packet>)
    requires AllKnown(rs, acks)
    ensures TimedKnown(L.RunCalls(p, rs), acks)
    decreases |rs|
  {
    if rs != [] {
      var t := rs[0];
      EventCalls(p, t, acks);
      RunCallsKnown(R.Apply(p, t).proto, rs[1..], acks);
      TimedConcat(L.Calls(p, t), t.now, L.RunCalls(R.Apply(p, t).proto, rs[1..]), acks);
    }
  }

  /** Acknowledged before, or by one of the acknowledgements. */
  ghost predicate AckedBy(before: seq<PacketFates.Life>, lives: seq<PacketFates.Life>, acks: set<Packet>) {
    forall i :: 0 <= i < |lives| && lives[i].fate.Acknowledged? ==>
      (i < |before| && before[i].fate.Acknowledged?) || Borne(acks, lives[i].seqNo)
  }

  lemma StepAckedBy(g: PacketFates.Ledger, t: M.Timed, before: seq<PacketFates.Life>, acks: set<Packet>)
    requires AckedBy(before, g.lives, acks) && (t.event.AckFor? ==> Borne(acks, t.event.seqNo))
    ensures AckedBy(before, PacketFates.Step(g, t).lives, acks)
  {
    var lives := PacketFates.Step(g, t).lives;
    forall i | 0 <= i < |lives| && lives[i].fate.Acknowledged?
      ensures (i < |before| && before[i].fate.Acknowledged?) || Borne(acks, lives[i].seqNo)
    {
      if i < |g.lives| && g.lives[i].fate.Acknowledged? {
        assert lives[i] == g.lives[i];
      }
    }
  }

  lemma {:induction false} RunAckedBy(g: PacketFates.Ledger, ms: seq<M.Timed>, before: seq<PacketFates.Life>,
                                      acks: set<Packet>)
    requires AckedBy(before, g.lives, acks) && TimedKnown(ms, acks)
    ensures AckedBy(before, PacketFates.Run(g, ms).lives, acks)
    decreases |ms|
  {
    if ms != [] {
      assert ms[0].event.AckFor? ==> Borne(acks, ms[0].event.seqNo);
      StepAckedBy(g, ms[0], before, acks);
      RunAckedBy(PacketFates.Step(g, ms[0]), ms[1..], before, acks);
    }
  }

  // ---------------------------------------------------------------- the theorems

  /** In every run from a silenced session in mid-traffic, until a stop or a change of
      endpoint: the session does not change, and no acknowledgement is in flight that was not
      already; only packets whose numbers those bear can still be acknowledged; and if the
      rover's last check is never more than `d` old, every other packet, tracked before or
      after, is abandoned within 35000 + 3d ms unless a reset clears it, and none is tracked
      longer. */
  lemma SilenceAbandons(j: Joint, ts: seq<Timed>, g: PacketFates.Ledger, d: nat)
    requires Silent(j) && Valid(j, g.now, ts) && g.state == j.world.rover.rel
    requires PacketFates.Indexed(g) && PacketFates.Scheduled(g) && PacketFates.AllPrompt(g, d)
    requires PacketFates.Timely(g, L.RunCalls(j.world.rover, RoverRun(j, ts)), d)
    ensures Run(j, ts).station == j.station && Acks(Run(j, ts).world.toRover) <= Acks(j.world.toRover)
    ensures var r := PacketFates.Run(g, L.RunCalls(j.world.rover, RoverRun(j, ts)));
            && r.state == Run(j, ts).world.rover.rel
            && AckedBy(g.lives, r.lives, Acks(j.world.toRover))
            && forall l :: l in r.lives ==>
                 && (l.fate.Abandoned? ==> l.fate.at <= l.born + 35000 + 3 * d)
                 && (l.fate.Live? && r.now - r.lastCheck <= d ==> r.now <= l.born + 35000 + 3 * d)
  {
    var p, rs, acks := j.world.rover, RoverRun(j, ts), Acks(j.world.toRover);
    RunStaysSilent(j, g.now, ts);
    RoverRunIsLayerRun(j, g.now, ts, acks);
    L.ValidAllows(g.now, rs);
    L.LayerRunIsManagerRun(p, rs);
    PacketFates.StateFollows(g, L.RunCalls(p, rs));
    L.LayerKeepsDeadlines(p, g, rs, d);
    RunCallsKnown(p, rs, acks);
    RunAckedBy(g, L.RunCalls(p, rs), g.lives, acks);
  }

  /** All that time a probe of the connected rover is answered by SESSION_ESTABLISHED, and the
      flag stays clear. */
  lemma ProbesAreReassured(j: Joint, now: int, ts: seq<Timed>)
    requires Silent(j) && Valid(j, now, ts) && !Unspecified(j.station.rover)
    ensures var b := Run(j, ts).station;
            S.Route(b, SESSION_INIT, b.roverId, b.rover) == S.Reply(b, [(SESSION_ESTABLISHED, b.rover)]) && !b.flag
  {
    RunStaysSilent(j, now, ts);
  }

  // ---------------------------------------------------------------- it is reached

  lemma RunCons(j: Joint, t: Timed, ts: seq<Timed>)
    ensures Run(j, [t] + ts) == Run(Step(j, t), ts)
  {
    assert ([t] + ts)[1..] == ts;
  }

  /** A handshake makes the session active and sets the layer's flag. */
  lemma Connects(j: Joint, id: string, from: Endpoint, now: int, ts: bv32)
    requires Regular(j) && S.Fresh(j.station)
    ensures var n := Step(Step(j, At(now, ts, Command(SESSION_INIT, id, from))),
                          At(now, ts, Command(SESSION_CONFIRM, id, from)));
            && Regular(n) && n.station == S.Base(S.ACTIVE, id, from, true)
            && n.world == j.world.(base := j.world.base.(sessionActive := true))
  {
    var e1, e2 := At(now, ts, Command(SESSION_INIT, id, from)), At(now, ts, Command(SESSION_CONFIRM, id, from));
    var j1 := Step(j, e1);
    assert j1.station == S.Base(S.HANDSHAKE_ACCEPT, id, from, false);
    assert j1.world == j.world.(base := j.world.base.(sessionActive := false));
    var j2 := Step(j1, e2);
    assert j2.world == j.world.(base := j.world.base.(sessionActive := true));
  }

  /** The rover sends a packet, which the base acknowledges. */
  lemma Exchanges(j: Joint, payload: Bytes, now: int, ts: bv32) returns (e3: Timed, e4: Timed)
    requires Regular(j) && j.station.flag
    ensures var n := Step(Step(j, e3), e4);
            && Allowed(j, e3.event) && Allowed(Step(j, e3), e4.event)
            && Regular(n) && n.station == j.station && n.world.rover.rel.sent != map[] && Acks(n.world.toRover) != {}
  {
    var send := R.At(now, ts, R.SendTo(payload, DATA, MEDIUM, UNSPECIFIED));
    var x, p := D.Issued(j.world.rover, send), j.world.rover;
    D.SendTracks(p, send);
    assert R.Apply(p, send).effects[0] == Send(x, p.base);
    e3, e4 := At(now, ts, Net(D.AtRover(send.event))), At(now, ts, Net(D.ReachBase(x)));
    var j3 := Step(j, e3);
    assert x in j3.world.toBase && p.current in j3.world.rover.rel.sent;
    var b := j3.world.base;
    B.DataEffects(b, x, j3.world.roverEnd, now, ts);
    B.StaysStarted(b, B.At(now, ts, B.Arrive(x, j3.world.roverEnd)));
    var ack := NewPacket(ACK, HIGH, b.current, ts, [ToByte(x.header.sequence)]);
    assert ProcessPacket(b, x, j3.world.roverEnd, now, ts).effects[0] == Send(ack, j3.world.roverEnd);
    assert ack in Acks(Step(j3, e4).world.toRover);
  }

  /** A silenced session in mid-traffic is reached from the very beginning: a rover connects
      and sends a packet, the base acknowledges it, and another rover's INIT arrives before
      the acknowledgement does. */
  lemma SilenceIsReached(j: Joint, id: string, from: Endpoint, other: string, elsewhere: Endpoint, payload: Bytes,
                         now: int, ts: bv32) returns (run: seq<Timed>)
    requires D.Initial(j.world) && S.Fresh(j.station) && !j.world.base.sessionActive && other != id
    ensures var r := Run(j, run);
            Silent(r) && r.world.rover.rel.sent != map[] && Acks(r.world.toRover) != {}
  {
    var e1, e2 := At(now, ts, Command(SESSION_INIT, id, from)), At(now, ts, Command(SESSION_CONFIRM, id, from));
    Connects(j, id, from, now, ts);
    var j2 := Step(Step(j, e1), e2);
    var e3, e4 := Exchanges(j2, payload, now, ts);
    var j4, e5 := Step(Step(j2, e3), e4), At(now, ts, Command(SESSION_INIT, other, elsewhere));
    ForeignInitSilences(j4, e5);
    run := [e1] + ([e2] + ([e3] + ([e4] + ([e5] + []))));
    RunCons(j4, e5, []);
    RunCons(Step(j2, e3), e4, [e5] + []);
    RunCons(j2, e3, [e4] + ([e5] + []));
    RunCons(Step(j, e1), e2, [e3] + ([e4] + ([e5] + [])));
    RunCons(j, e1, [e2] + ([e3] + ([e4] + ([e5] + []))));
  }
}
