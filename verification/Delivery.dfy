/** A rover and a base over a network that loses, duplicates and reorders: an acknowledged
    packet was delivered. */
module Delivery {
  import opened Wire
  import opened Codec
  import opened Reliability
  import opened ReliabilityFacts
  import opened Protocol
  import R = RoverEvents
  import B = BaseEvents

  /** Both layers, the copies in flight each way, the packets the base passed up, and the
      packets the rover stopped tracking because of an acknowledgement. */
  datatype World = World(rover: Proto, base: Proto, roverEnd: Endpoint,
                         toBase: set<Packet>, toRover: set<Packet>,
                         forwarded: set<Packet>, confirmed: set<Packet>)

  datatype Event =
    /** The rover's timers, sends and resets, and packets from anyone but the base. */
    | AtRover(rover: R.Event)
    /** The base's timers, sends, resets and session changes, and packets from anyone but the rover. */
    | AtBase(base: B.Event)
    /** A copy in flight arrives; it may arrive again. */
    | ReachBase(packet: Packet)
    | ReachRover(packet: Packet)
    /** Copies in flight vanish. */
    | Lose(lostToBase: set<Packet>, lostToRover: set<Packet>)

  datatype Timed = At(now: int, ts: bv32, event: Event)

  predicate AcksNumber(a: Packet, s: uint8) {
    a.header.kind.ACK? && |a.payload| >= 1 && a.payload[0] as int == s
  }

  /** The base has `s` in its acknowledged set, or an acknowledgement of it is in flight. */
  ghost predicate Known(w: World, s: uint8) {
    HasAcked(w.base.rel, s, w.roverEnd) || exists a :: a in w.toRover && AcksNumber(a, s)
  }

  /** No data on its way to the base bears the number, other than copies of `x`. */
  ghost predicate OnlyCopiesOf(w: World, s: uint8, x: Packet) {
    forall c :: c in w.toBase && IsData(c) && c.header.sequence == s ==> c == x
  }

  /** When the rover may issue a number: nothing in flight, acknowledged or on its way back
      bears it, and if the rover still tracks a packet under it, that one was delivered. */
  ghost predicate FreshNumber(w: World, s: uint8) {
    if s in w.rover.rel.sent then w.rover.rel.sent[s].packet in w.forwarded
    else !Known(w, s) && forall c :: c in w.toBase && IsData(c) ==> c.header.sequence != s
  }

  /** What can happen next: packets come from where they are in flight, and only the base
      sends acknowledgements. */
  predicate Honest(w: World, e: Event) {
    match e
    case AtRover(r) => R.Allowed(r) && (r.Arrive? ==> r.from != w.rover.base && !r.packet.header.kind.ACK?)
    case AtBase(b) => B.Allowed(b) && (b.Arrive? ==> b.from != w.roverEnd)
    case ReachBase(p) => p in w.toBase
    case ReachRover(p) => p in w.toRover
    case Lose(_, _) => true
  }

  /** The same, with numbers issued only when fresh. */
  ghost predicate Possible(w: World, e: Event) {
    Honest(w, e) && (e.AtRover? && e.rover.SendTo? ==> FreshNumber(w, w.rover.current))
  }

  function SentTo(effects: seq<Effect>, to: Endpoint): set<Packet> {
    set x | x in effects && x.Send? && x.to == to :: x.packet
  }

  function ForwardedFrom(effects: seq<Effect>, from: Endpoint): set<Packet> {
    set x | x in effects && x.Forward? && x.from == from :: x.packet
  }

  /** The packets whose entries an acknowledgement erased. */
  function Confirmed(p: Proto, t: R.Timed): set<Packet> {
    if t.event.Arrive? && t.event.packet.header.kind.ACK?
    then set k | k in p.rel.sent && k !in R.Apply(p, t).proto.rel.sent :: p.rel.sent[k].packet
    else {}
  }

  function RoverMoves(w: World, t: R.Timed): World {
    var r := R.Apply(w.rover, t);
    w.(rover := r.proto, toBase := w.toBase + SentTo(r.effects, w.rover.base),
       confirmed := w.confirmed + Confirmed(w.rover, t))
  }

  function BaseMoves(w: World, t: B.Timed): World {
    var r := B.Apply(w.base, t);
    w.(base := r.proto, toRover := w.toRover + SentTo(r.effects, w.roverEnd),
       forwarded := w.forwarded + ForwardedFrom(r.effects, w.roverEnd))
  }

  function Step(w: World, t: Timed): World {
    match t.event
    case AtRover(e) => RoverMoves(w, R.At(t.now, t.ts, e))
    case AtBase(e) => BaseMoves(w, B.At(t.now, t.ts, e))
    case ReachBase(p) => BaseMoves(w, B.At(t.now, t.ts, B.Arrive(p, w.roverEnd)))
    case ReachRover(p) => RoverMoves(w, R.At(t.now, t.ts, R.Arrive(p, w.rover.base)))
    case Lose(x, y) => w.(toBase := w.toBase - x, toRover := w.toRover - y)
  }

  function Run(w: World, ts: seq<Timed>): World
    decreases |ts|
  {
    if ts == [] then w else Run(Step(w, ts[0]), ts[1..])
  }

  ghost predicate Valid(w: World, now: int, ts: seq<Timed>)
    decreases |ts|
  {
    ts == [] || (now <= ts[0].now && Possible(w, ts[0].event) && Valid(Step(w, ts[0]), ts[0].now, ts[1..]))
  }

  predicate Initial(w: World) {
    && R.Started(w.rover) && B.Started(w.base)
    && w.rover.rel.sent == map[] && w.base.rel.sent == map[]
    && w.toBase == {} && w.toRover == {} && w.forwarded == {} && w.confirmed == {}
  }

  // ---------------------------------------------------------------- the invariant

  ghost predicate KeysMatch(p: Proto) {
    forall k :: k in p.rel.sent ==> p.rel.sent[k].packet.header.sequence == k
  }

  /** The packet tracked under `k` was delivered, or nothing can acknowledge it before it is. */
  ghost predicate Settled(w: World, k: uint8)
    requires k in w.rover.rel.sent
  {
    var x := w.rover.rel.sent[k].packet;
    x in w.forwarded || (!Known(w, k) && OnlyCopiesOf(w, k, x))
  }

  ghost predicate Inv(w: World) {
    && R.Started(w.rover) && B.Started(w.base) && KeepsData(w.rover) && KeepsData(w.base) && KeysMatch(w.rover)
    && (forall k :: k in w.rover.rel.sent ==> Settled(w, k))
    && w.confirmed <= w.forwarded
  }

  // ---------------------------------------------------------------- the rover's steps

  /** A rover's data on the wire is what it tracks, except for what it sends first. */
  ghost predicate OnlyTracked(p: Proto, r: Outcome) {
    && R.Started(r.proto) && r.proto.base == p.base
    && (forall k :: k in r.proto.rel.sent ==> k in p.rel.sent && r.proto.rel.sent[k].packet == p.rel.sent[k].packet)
    && (forall x, to :: Send(x, to) in r.effects && IsData(x) ==>
          exists k :: k in p.rel.sent && p.rel.sent[k].packet == x)
  }

  lemma RetransmitOnlyTracked(p: Proto, t: R.Timed)
    requires R.Started(p) && t.event.RetransmitTick?
    ensures OnlyTracked(p, R.Apply(p, t))
  {
    ResendExact(p.rel, t.now);
  }

  lemma OthersOnlyTracked(p: Proto, t: R.Timed)
    requires R.Started(p) && !t.event.SendTo?
    ensures OnlyTracked(p, R.Apply(p, t))
  {
    match t.event
    case RetransmitTick => RetransmitOnlyTracked(p, t);
    case Arrive(packet, from) => R.ArrivalFrame(p, packet, from, t.now, t.ts);
    case CleanupTick =>
    case ResetAll =>
  }

  lemma OthersKeepInv(w: World, t: R.Timed)
    requires Inv(w) && !t.event.SendTo?
    requires Confirmed(w.rover, t) <= w.forwarded
    ensures Inv(RoverMoves(w, t))
  {
    OthersOnlyTracked(w.rover, t);
    var w' := RoverMoves(w, t);
    forall k | k in w'.rover.rel.sent ensures Settled(w', k) {
      assert Settled(w, k);
      assert Known(w', k) ==> Known(w, k);
    }
  }

  function Issued(p: Proto, t: R.Timed): Packet
    requires t.event.SendTo?
  {
    NewPacket(t.event.kind, t.event.priority, p.current, t.ts, t.event.payload)
  }

  /** A packet is tracked under its number if that is free, and goes to the base or elsewhere. */
  lemma SendTracks(p: Proto, t: R.Timed)
    requires R.Started(p) && t.event.SendTo? && R.Allowed(t.event)
    ensures var r, x, s := R.Apply(p, t), Issued(p, t), p.current;
            && R.Started(r.proto) && r.proto.base == p.base && IsData(x) && x.header.sequence == s
            && r.proto.rel.sent.Keys == p.rel.sent.Keys + {s}
            && (forall k :: k in p.rel.sent ==> r.proto.rel.sent[k] == p.rel.sent[k])
            && (s !in p.rel.sent ==> r.proto.rel.sent[s].packet == x)
            && r.effects == [Send(x, if Unspecified(t.event.recipient) then p.base else t.event.recipient)]
  {
  }

  lemma SendKeepsInv(w: World, t: R.Timed)
    requires Inv(w) && t.event.SendTo? && R.Allowed(t.event) && FreshNumber(w, w.rover.current)
    ensures Inv(RoverMoves(w, t))
  {
    SendTracks(w.rover, t);
    var w' := RoverMoves(w, t);
    forall k | k in w'.rover.rel.sent ensures Settled(w', k) {
      assert Known(w', k) ==> Known(w, k);
      if k in w.rover.rel.sent {
        assert Settled(w, k);
      }
    }
  }

  // ---------------------------------------------------------------- the base's steps

  /** Nothing new is acknowledged to the rover, in the set or on the wire. */
  ghost predicate AcksNothing(p: Proto, r: Outcome, roverEnd: Endpoint) {
    && KeepsData(r.proto)
    && (forall s :: HasAcked(r.proto.rel, s, roverEnd) ==> HasAcked(p.rel, s, roverEnd))
    && (forall a :: Send(a, roverEnd) in r.effects ==> !a.header.kind.ACK?)
  }

  lemma ForeignDataAcksNothing(p: Proto, x: Packet, from: Endpoint, now: int, ts: bv32, roverEnd: Endpoint)
    requires B.Started(p) && KeepsData(p) && IsData(x) && from != roverEnd
    ensures AcksNothing(p, ProcessPacket(p, x, from, now, ts), roverEnd)
  {
  }

  /** Every step of the base but data from the rover acknowledges nothing to it. */
  lemma OthersAckNothing(p: Proto, t: B.Timed, roverEnd: Endpoint)
    requires B.Started(p) && KeepsData(p) && B.Allowed(t.event)
    requires t.event.Arrive? && t.event.from == roverEnd ==> !IsData(t.event.packet)
    ensures AcksNothing(p, B.Apply(p, t), roverEnd)
  {
    if t.event.Arrive? && IsData(t.event.packet) {
      ForeignDataAcksNothing(p, t.event.packet, t.event.from, t.now, t.ts, roverEnd);
    } else {
      B.OtherEffects(p, t);
      B.StaysStarted(p, t);
    }
  }

  lemma OtherBaseStepKeepsInv(w: World, t: B.Timed)
    requires Inv(w) && B.Allowed(t.event)
    requires t.event.Arrive? && t.event.from == w.roverEnd ==> !IsData(t.event.packet)
    ensures Inv(BaseMoves(w, t))
  {
    B.StaysStarted(w.base, t);
    OthersAckNothing(w.base, t, w.roverEnd);
    var w' := BaseMoves(w, t);
    forall k | k in w'.rover.rel.sent ensures Settled(w', k) {
      assert Settled(w, k);
      assert Known(w', k) ==> Known(w, k);
    }
  }

  /** Data from the rover: it is passed up unless its number is acknowledged, and only its
      number can become acknowledged. */
  lemma DataAcksItself(p: Proto, x: Packet, from: Endpoint, now: int, ts: bv32)
    requires B.Started(p) && IsData(x)
    ensures var r := ProcessPacket(p, x, from, now, ts);
            && r.proto.rel.sent == p.rel.sent
            && (forall s :: HasAcked(r.proto.rel, s, from) ==> HasAcked(p.rel, s, from) || s == x.header.sequence)
            && (forall a, s :: Send(a, from) in r.effects && AcksNumber(a, s) ==> s == x.header.sequence)
            && (!HasAcked(p.rel, x.header.sequence, from) ==> Forward(x, from) in r.effects)
  {
  }

  lemma DataKeepsInv(w: World, x: Packet, now: int, ts: bv32)
    requires Inv(w) && x in w.toBase && IsData(x)
    ensures Inv(BaseMoves(w, B.At(now, ts, B.Arrive(x, w.roverEnd))))
  {
    var t := B.At(now, ts, B.Arrive(x, w.roverEnd));
    B.StaysStarted(w.base, t);
    DataAcksItself(w.base, x, w.roverEnd, now, ts);
    var w' := BaseMoves(w, t);
    forall k | k in w'.rover.rel.sent ensures Settled(w', k) {
      assert Settled(w, k);
      if k == x.header.sequence {
        assert Known(w, k) || x in w'.forwarded;
      } else {
        assert Known(w', k) ==> Known(w, k);
      }
    }
  }

  // ---------------------------------------------------------------- whole runs

  /** An acknowledgement from the network erases only what was forwarded. */
  lemma ErasedWasForwarded(w: World, a: Packet, now: int, ts: bv32)
    requires Inv(w) && a in w.toRover
    ensures Confirmed(w.rover, R.At(now, ts, R.Arrive(a, w.rover.base))) <= w.forwarded
  {
  }

  lemma LossKeepsInv(w: World, x: set<Packet>, y: set<Packet>)
    requires Inv(w)
    ensures Inv(w.(toBase := w.toBase - x, toRover := w.toRover - y))
  {
  }

  lemma StepKeepsInv(w: World, t: Timed)
    requires Inv(w) && Possible(w, t.event)
    ensures Inv(Step(w, t))
  {
    match t.event
    case AtRover(e) =>
      if e.SendTo? {
        SendKeepsInv(w, R.At(t.now, t.ts, e));
      } else {
        OthersKeepInv(w, R.At(t.now, t.ts, e));
      }
    case AtBase(e) => OtherBaseStepKeepsInv(w, B.At(t.now, t.ts, e));
    case ReachBase(p) =>
      if IsData(p) {
        DataKeepsInv(w, p, t.now, t.ts);
      } else {
        OtherBaseStepKeepsInv(w, B.At(t.now, t.ts, B.Arrive(p, w.roverEnd)));
      }
    case ReachRover(p) =>
      ErasedWasForwarded(w, p, t.now, t.ts);
      OthersKeepInv(w, R.At(t.now, t.ts, R.Arrive(p, w.rover.base)));
    case Lose(x, y) => LossKeepsInv(w, x, y);
  }

  lemma {:induction false} RunKeepsInv(w: World, now: int, ts: seq<Timed>)
    requires Inv(w) && Valid(w, now, ts)
    ensures Inv(Run(w, ts))
    decreases |ts|
  {
    if ts != [] {
      StepKeepsInv(w, ts[0]);
      RunKeepsInv(Step(w, ts[0]), ts[0].now, ts[1..]);
    }
  }

  /** In every run in which numbers are issued only when fresh, whatever is lost, duplicated
      or reordered and however the session toggles: every packet the rover stopped tracking
      because of an acknowledgement, the base had passed up, that very packet. */
  lemma AcknowledgedWasDelivered(w: World, now: int, ts: seq<Timed>)
    requires Initial(w) && Valid(w, now, ts)
    ensures Run(w, ts).confirmed <= Run(w, ts).forwarded
  {
    RunKeepsInv(w, now, ts);
  }

  // ---------------------------------------------------------------- the condition is exact

  /** Whatever happens from here, nothing is acknowledged without being delivered. */
  ghost predicate Safe(w: World, now: int) {
    forall ts :: Valid(w, now, ts) ==> Run(w, ts).confirmed <= Run(w, ts).forwarded
  }

  ghost predicate Unsafe(w: World, now: int) {
    exists ts :: Valid(w, now, ts) && !(Run(w, ts).confirmed <= Run(w, ts).forwarded)
  }

  lemma UnsafeBefore(w: World, t: Timed)
    requires Possible(w, t.event) && Unsafe(Step(w, t), t.now)
    ensures Unsafe(w, t.now)
  {
    var ts :| Valid(Step(w, t), t.now, ts) && !(Run(Step(w, t), ts).confirmed <= Run(Step(w, t), ts).forwarded);
    var all := [t] + ts;
    assert all[0] == t && all[1..] == ts;
    assert Valid(w, t.now, all) && Run(w, all) == Run(Step(w, t), ts);
  }

  lemma UnsafeNow(w: World, now: int)
    requires !(w.confirmed <= w.forwarded)
    ensures Unsafe(w, now)
  {
    assert Valid(w, now, []) && Run(w, []) == w;
  }

  /** An acknowledgement in flight reaches the rover, which tracks an undelivered packet
      under its number. */
  lemma AckArrives(w: World, a: Packet, k: uint8, now: int)
    requires R.Started(w.rover) && a in w.toRover && AcksNumber(a, k)
    requires k in w.rover.rel.sent && w.rover.rel.sent[k].packet !in w.forwarded
    ensures Unsafe(w, now)
  {
    var t := At(now, 0, ReachRover(a));
    R.ArrivalFrame(w.rover, a, w.rover.base, now, 0);
    var w' := Step(w, t);
    assert k !in w'.rover.rel.sent;
    assert w.rover.rel.sent[k].packet in Confirmed(w.rover, R.At(now, 0, R.Arrive(a, w.rover.base)));
    UnsafeNow(w', now);
    UnsafeBefore(w, t);
  }

  /** With the session active, a copy that is not the tracked packet reaches the base, or
      the number is already acknowledged there. */
  lemma CopyArrives(w: World, c: Packet, k: uint8, now: int)
    requires R.Started(w.rover) && B.Started(w.base) && w.base.sessionActive
    requires c in w.toBase && IsData(c) && c.header.sequence == k
    requires k in w.rover.rel.sent && w.rover.rel.sent[k].packet !in w.forwarded
    requires c != w.rover.rel.sent[k].packet || HasAcked(w.base.rel, k, w.roverEnd)
    ensures Unsafe(w, now)
  {
    var t := At(now, 0, ReachBase(c));
    B.DataEffects(w.base, c, w.roverEnd, now, 0);
    var w' := Step(w, t);
    var a := NewPacket(ACK, HIGH, w.base.current, 0, [ToByte(k)]);
    var effects := ProcessPacket(w.base, c, w.roverEnd, now, 0).effects;
    assert effects[0] == Send(a, w.roverEnd);
    assert a in w'.toRover && AcksNumber(a, k);
    AckArrives(w', a, k, now);
    UnsafeBefore(w, t);
  }

  lemma CopyArrivesLater(w: World, c: Packet, k: uint8, now: int)
    requires R.Started(w.rover) && B.Started(w.base)
    requires c in w.toBase && IsData(c) && c.header.sequence == k
    requires k in w.rover.rel.sent && w.rover.rel.sent[k].packet !in w.forwarded
    requires c != w.rover.rel.sent[k].packet || HasAcked(w.base.rel, k, w.roverEnd)
    ensures Unsafe(w, now)
  {
    var t := At(now, 0, AtBase(B.SetActive(true)));
    CopyArrives(Step(w, t), c, k, now);
    UnsafeBefore(w, t);
  }

  /** A packet unlike any the base has passed up and any in flight or tracked. */
  ghost predicate New(w: World, x: Packet) {
    x !in w.forwarded && x !in w.toBase && forall k :: k in w.rover.rel.sent ==> w.rover.rel.sent[k].packet != x
  }

  lemma StaleIsUnsafe(w: World, t: R.Timed)
    requires Inv(w) && t.event.SendTo? && R.Allowed(t.event)
    requires t.event.recipient == w.rover.base || Unspecified(t.event.recipient)
    requires New(w, Issued(w.rover, t)) && !FreshNumber(w, w.rover.current)
    ensures Unsafe(RoverMoves(w, t), t.now)
  {
    var s, x, w' := w.rover.current, Issued(w.rover, t), RoverMoves(w, t);
    SendTracks(w.rover, t);
    var effects := R.Apply(w.rover, t).effects;
    assert effects[0] == Send(x, w.rover.base);
    assert x in w'.toBase;
    if s in w.rover.rel.sent || HasAcked(w.base.rel, s, w.roverEnd) {
      CopyArrivesLater(w', x, s, t.now);
    } else if c :| c in w.toBase && IsData(c) && c.header.sequence == s {
      CopyArrivesLater(w', c, s, t.now);
    } else {
      var a :| a in w.toRover && AcksNumber(a, s);
      AckArrives(w', a, s, t.now);
    }
  }

  lemma IssueSafeIff(w: World, t: R.Timed)
    requires Inv(w) && t.event.SendTo? && R.Allowed(t.event)
    requires t.event.recipient == w.rover.base || Unspecified(t.event.recipient)
    requires New(w, Issued(w.rover, t))
    ensures FreshNumber(w, w.rover.current) <==> Safe(RoverMoves(w, t), t.now)
  {
    var w' := RoverMoves(w, t);
    if FreshNumber(w, w.rover.current) {
      SendKeepsInv(w, t);
      forall ts | Valid(w', t.now, ts) ensures Run(w', ts).confirmed <= Run(w', ts).forwarded {
        RunKeepsInv(w', t.now, ts);
      }
    } else {
      StaleIsUnsafe(w, t);
    }
  }

  /** In every reachable state, sending a new packet to the base keeps every continuation
      safe exactly when its number is fresh. */
  lemma FreshnessIsExact(w: World, now: int, ts: seq<Timed>, t: R.Timed)
    requires Initial(w) && Valid(w, now, ts) && t.event.SendTo? && R.Allowed(t.event)
    requires t.event.recipient == Run(w, ts).rover.base || Unspecified(t.event.recipient)
    requires New(Run(w, ts), Issued(Run(w, ts).rover, t))
    ensures var r := Run(w, ts);
            FreshNumber(r, r.rover.current) <==> Safe(RoverMoves(r, t), t.now)
  {
    RunKeepsInv(w, now, ts);
    IssueSafeIff(Run(w, ts), t);
  }

  // ---------------------------------------------------------------- the condition is violated

  /** With numbers restarted at 0 and a copy of number 0 still in flight, the next number is
      stale. */
  lemma RestartIsStale(w: World, x: Packet, again: R.Timed)
    requires Inv(w) && w.rover.current == 0 && w.rover.rel.sent == map[] && w.forwarded == {} && w.toBase == {x}
    requires IsData(x) && x.header.sequence == 0
    requires again.event.SendTo? && R.Allowed(again.event) && Unspecified(again.event.recipient)
    requires Issued(w.rover, again) != x
    ensures !FreshNumber(w, w.rover.current) && New(w, Issued(w.rover, again))
    ensures Unsafe(RoverMoves(w, again), again.now)
  {
    assert x in w.toBase;
    StaleIsUnsafe(w, again);
  }
}
