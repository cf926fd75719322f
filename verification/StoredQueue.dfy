/** Whole runs of a rover: everything it hands to its protocol layer, and what becomes of the
    messages stored while it is disconnected. */
module StoredQueue {
  import opened Pieces
  import opened Wire
  import opened Codec
  import opened Protocol
  import opened Commands
  import opened Rovers
  import S = RoverSessions
  import R = RoverEvents

  datatype Event =
    /** A session handler that sends commands at most, and the application's commands. */
    | Session(own: S.Event)
    | Hear(command: Command, sender: string, from: Endpoint, status: Stored, telemetry: Stored)
    | Timer(report: Stored)
    | Message(message: Stored)
    | Timeout(recipient: Endpoint)
    /** The posted sequence reset and the posted probe. */
    | Reset
    | Probe
    /** The protocol layer under the rover: packets arriving and its timers. */
    | Layer(layer: R.Event)

  datatype Timed = At(x: Context, event: Event)

  /** Session events that reach the rover through other handlers are not repeated, the layer
      is sent to and reset only by the rover, and the rover is not stopped. */
  predicate Allowed(e: Event) {
    && (e.Session? ==> !e.own.Heard? && !e.own.BaseLost? && !e.own.Halt?)
    && (e.Layer? ==> !e.layer.SendTo? && !e.layer.ResetAll?)
  }

  function Apply(r: Rover, own: string, t: Timed): Reaction {
    match t.event
    case Session(e) => Perform(r, S.Apply(r.session, e), t.x)
    case Hear(c, sender, from, status, telemetry) => Route(r, own, c, sender, from, status, telemetry, t.x)
    case Timer(m) => Report(r, m, t.x)
    case Message(m) => SendAppMessage(r, m, t.x)
    case Timeout(recipient) => Reaction(PacketTimeout(r, recipient), [], [])
    case Reset => Reaction(PostedReset(r), [], [])
    case Probe => PostedProbe(r, t.x)
    case Layer(e) =>
      var out := R.Apply(r.proto, R.At(t.x.now, t.x.ts, e));
      Reaction(r.(proto := out.proto), [], out.effects)
  }

  // ---------------------------------------------------------------- what an event should do

  /** Bound for the base. */
  function Bound(r: Rover, m: Stored): Stored {
    m.(recipient := r.proto.base)
  }

  /** The message that an event makes the rover take for later. */
  function Takes(r: Rover, e: Event): seq<Stored> {
    if !r.session.state.DISCONNECTED? then []
    else if e.Timer? && !Suppressed(r, e.report) then [Bound(r, e.report)]
    else if e.Message? && ForBase(r, e.message.recipient) && !Suppressed(r, e.message) then [Bound(r, e.message)]
    else []
  }

  /** Word from the base that makes the session active. */
  predicate Establishes(r: Rover, own: string, e: Event) {
    && e.Hear? && e.command.SESSION_ESTABLISHED? && e.sender != own && e.from == r.proto.base
    && !r.session.state.ACTIVE?
  }

  function CommandText(r: Rover, x: Context): Stored {
    Stored(x.text, CMD, HIGH, r.proto.base)
  }

  /** A report that goes out in an active session. */
  function Reported(r: Rover, m: Stored): seq<Stored> {
    if Suppressed(r, m) then [] else [Bound(r, m)]
  }

  /** What an event other than activation hands over: its own message or command, or nothing. */
  function OwnMessage(r: Rover, own: string, t: Timed): (ms: seq<Stored>)
    ensures |ms| <= 1
    ensures Takes(r, t.event) != [] ==> ms == []
  {
    match t.event
    case Session(e) => if S.Apply(r.session, e).sent == [] then [] else [CommandText(r, t.x)]
    case Hear(c, sender, from, _, _) =>
      if c.SESSION_ACCEPT? && sender != own && from == r.proto.base && S.Accept(r.session).sent != []
      then [CommandText(r, t.x)] else []
    case Timer(m) => if r.session.state.ACTIVE? then Reported(r, m) else []
    case Message(m) =>
      if !ForBase(r, m.recipient) then if r.lowPower then [] else [m]
      else if r.session.state.ACTIVE? then Reported(r, m) else []
    case Probe => if r.probes > 0 && r.session.state.DISCONNECTED? then [CommandText(r, t.x)] else []
    case _ => []
  }

  /** Activation hands over the queue, then its own status and telemetry. */
  function HandedBy(r: Rover, own: string, t: Timed): seq<Stored> {
    if Establishes(r, own, t.event)
    then r.stored + Reported(r, t.event.status) + Reported(r, t.event.telemetry)
    else OwnMessage(r, own, t)
  }

  // ---------------------------------------------------------------- the session

  /** What an event of the whole rover is to its session alone. */
  function SessionEvent(r: Rover, own: string, e: Event): Option<S.Event> {
    match e
    case Session(own) => Some(own)
    case Hear(c, sender, from, _, _) =>
      if sender != own && from == r.proto.base && (c.SESSION_ACCEPT? || c.SESSION_ESTABLISHED?)
      then Some(S.Heard(c)) else None
    case Timeout(recipient) => if recipient == r.proto.base then Some(S.BaseLost) else None
    case Probe => if r.probes > 0 then Some(S.ProbeTick) else None
    case _ => None
  }

  /** The whole rover moves its session, and sends commands, as the session alone does. */
  lemma RefinesSession(r: Rover, own: string, t: Timed)
    requires R.Started(r.proto)
    ensures var n := Apply(r, own, t);
            match SessionEvent(r, own, t.event)
            case None => n.rover.session == r.session && n.commands == []
            case Some(e) => n.rover.session == S.Apply(r.session, e).session && n.commands == S.Apply(r.session, e).sent
  {
  }

  // ---------------------------------------------------------------- one drain

  function Target(p: Proto, m: Stored): Endpoint {
    if Unspecified(m.recipient) then p.base else m.recipient
  }

  function PacketFor(m: Stored, seqNo: uint8, ts: bv32): Packet {
    NewPacket(m.kind, m.priority, seqNo, ts, m.payload)
  }

  lemma HandOne(p: Proto, m: Stored, x: Context)
    requires R.Started(p)
    ensures var r := Hand(p, m, x);
            && R.Started(r.proto) && r.proto.base == p.base && r.proto.current == Next(p.current)
            && r.effects == [Send(PacketFor(m, p.current, x.ts), Target(p, m))]
  {
  }

  ghost predicate SentAs(effects: seq<Effect>, p: Proto, stored: seq<Stored>, ts: bv32) {
    && |effects| == |stored|
    && forall i :: 0 <= i < |stored| ==>
         effects[i] == Send(PacketFor(stored[i], Later(p.current, i), ts), Target(p, stored[i]))
  }

  lemma SentAsCons(p: Proto, p': Proto, stored: seq<Stored>, rest: seq<Effect>, ts: bv32)
    requires stored != [] && p'.base == p.base && p'.current == Next(p.current)
    requires SentAs(rest, p', stored[1..], ts)
    ensures SentAs([Send(PacketFor(stored[0], p.current, ts), Target(p, stored[0]))] + rest, p, stored, ts)
  {
    var all := [Send(PacketFor(stored[0], p.current, ts), Target(p, stored[0]))] + rest;
    forall i | 0 <= i < |stored|
      ensures all[i] == Send(PacketFor(stored[i], Later(p.current, i), ts), Target(p, stored[i]))
    {
      if i == 0 {
        LaterNext(p.current, 0);
      } else {
        LaterNext(p.current, i - 1);
        assert all[i] == rest[i - 1] && stored[i] == stored[1..][i - 1];
      }
    }
  }

  /** Draining sends exactly the queue, in order, under consecutive numbers modulo 256. */
  lemma {:induction false} DrainExact(p: Proto, stored: seq<Stored>, x: Context)
    requires R.Started(p)
    ensures var r := Drain(p, stored, x);
            && SentAs(r.effects, p, stored, x.ts)
            && R.Started(r.proto) && r.proto.base == p.base && r.proto.current == Later(p.current, |stored|)
    decreases |stored|
  {
    LaterNext(p.current, 0);
    if stored != [] {
      var first := Hand(p, stored[0], x);
      HandOne(p, stored[0], x);
      DrainExact(first.proto, stored[1..], x);
      SentAsCons(p, first.proto, stored, Drain(first.proto, stored[1..], x).effects, x.ts);
      LaterNext(p.current, |stored| - 1);
    }
  }

  // ---------------------------------------------------------------- one event

  lemma {:induction false} SentAsConcat(a: seq<Effect>, b: seq<Effect>, p: Proto, p': Proto,
                                        first: seq<Stored>, second: seq<Stored>, ts: bv32)
    requires SentAs(a, p, first, ts) && SentAs(b, p', second, ts)
    requires p'.base == p.base && p'.current == Later(p.current, |first|)
    ensures SentAs(a + b, p, first + second, ts)
  {
    var all := first + second;
    forall i | 0 <= i < |all|
      ensures (a + b)[i] == Send(PacketFor(all[i], Later(p.current, i), ts), Target(p, all[i]))
    {
      if i >= |first| {
        LaterAdds(p.current, |first|, i - |first|);
      }
    }
  }

  lemma LaterAdds(n: uint8, i: nat, j: nat)
    ensures Later(Later(n, i), j) == Later(n, i + j)
  {
  }

  /** A report: what it hands over, and what it stores instead. */
  lemma ReportHands(r: Rover, m: Stored, x: Context)
    requires R.Started(r.proto)
    ensures var n := Report(r, m, x);
            var handed := if r.session.state.ACTIVE? then Reported(r, m) else [];
            && SentAs(n.effects, r.proto, handed, x.ts)
            && n.rover == r.(stored := r.stored + Takes(r, Timer(m)), proto := n.rover.proto)
            && R.Started(n.rover.proto) && n.rover.proto.base == r.proto.base
            && n.rover.proto.current == Later(r.proto.current, |handed|)
  {
    HandOne(r.proto, Bound(r, m), x);
    LaterNext(r.proto.current, 0);
    assert r.stored + [] == r.stored;
  }

  /** Becoming active hands over the queue, then status and telemetry, and empties it. */
  lemma EstablishHands(r: Rover, status: Stored, telemetry: Stored, x: Context)
    requires R.Started(r.proto) && !r.session.state.ACTIVE?
    ensures var n := Establish(r, status, telemetry, x);
            && SentAs(n.effects, r.proto, r.stored + Reported(r, status) + Reported(r, telemetry), x.ts)
            && R.Started(n.rover.proto) && n.rover.proto.base == r.proto.base
            && n.rover.session == S.Session(S.ACTIVE, 0) && n.rover.stored == []
  {
    var out := Drain(r.proto, r.stored, x);
    DrainExact(r.proto, r.stored, x);
    var active := r.(session := S.Established(r.session).session, stored := [], proto := out.proto);
    var first := Report(active, status, x);
    ReportHands(active, status, x);
    var second := Report(first.rover, telemetry, x);
    ReportHands(first.rover, telemetry, x);
    LaterAdds(r.proto.current, |r.stored|, |Reported(r, status)|);
    SentAsConcat(out.effects, first.effects, r.proto, out.proto, r.stored, Reported(r, status), x.ts);
    SentAsConcat(out.effects + first.effects, second.effects, r.proto, first.rover.proto,
                 r.stored + Reported(r, status), Reported(r, telemetry), x.ts);
  }

  lemma PerformHands(r: Rover, t: S.Turn, x: Context)
    requires R.Started(r.proto)
    ensures var n := Perform(r, t, x);
            && SentAs(n.effects, r.proto, if t.sent == [] then [] else [CommandText(r, x)], x.ts)
            && n.rover == r.(session := t.session, proto := n.rover.proto)
            && R.Started(n.rover.proto) && n.rover.proto.base == r.proto.base
  {
    HandOne(r.proto, CommandText(r, x), x);
    LaterNext(r.proto.current, 0);
  }

  lemma LayerKeeps(p: Proto, t: R.Timed)
    requires R.Started(p) && !t.event.SendTo? && !t.event.ResetAll?
    ensures R.Started(R.Apply(p, t).proto) && R.Apply(p, t).proto.base == p.base
  {
    if t.event.Arrive? {
      R.ArrivalFrame(p, t.event.packet, t.event.from, t.now, t.ts);
    }
  }

  /** What every step keeps, and what it does to the queue. */
  ghost predicate Steps(r: Rover, own: string, e: Event, n: Rover) {
    && R.Started(n.proto) && n.proto.base == r.proto.base
    && n.stored == (if Establishes(r, own, e) then [] else r.stored + Takes(r, e))
    && (n.session.state.ACTIVE? ==> r.session.state.ACTIVE? || Establishes(r, own, e))
  }

  /** The event does what it should. */
  ghost predicate Right(r: Rover, own: string, t: Timed) {
    && Steps(r, own, t.event, Apply(r, own, t).rover)
    && (!t.event.Layer? ==> SentAs(Apply(r, own, t).effects, r.proto, HandedBy(r, own, t), t.x.ts))
  }

  lemma SessionRight(r: Rover, own: string, t: Timed)
    requires R.Started(r.proto) && Allowed(t.event) && (t.event.Session? || t.event.Probe?)
    ensures Right(r, own, t)
  {
    assert r.stored + [] == r.stored;
    if t.event.Session? {
      S.ActiveExactly(r.session, t.event.own);
      PerformHands(r, S.Apply(r.session, t.event.own), t.x);
    } else if r.probes > 0 {
      PerformHands(r.(probes := r.probes - 1), S.ProbeTimer(r.session), t.x);
    }
  }

  lemma HearRight(r: Rover, own: string, t: Timed)
    requires R.Started(r.proto) && t.event.Hear?
    ensures Right(r, own, t)
  {
    assert r.stored + [] == r.stored;
    PerformHands(r, S.Accept(r.session), t.x);
    if Establishes(r, own, t.event) {
      EstablishHands(r, t.event.status, t.event.telemetry, t.x);
    }
  }

  lemma MessageRight(r: Rover, own: string, t: Timed)
    requires R.Started(r.proto) && (t.event.Timer? || t.event.Message?)
    ensures Right(r, own, t)
  {
    if t.event.Timer? {
      ReportHands(r, t.event.report, t.x);
    } else if ForBase(r, t.event.message.recipient) {
      ReportHands(r, t.event.message, t.x);
    } else {
      HandOne(r.proto, t.event.message, t.x);
      LaterNext(r.proto.current, 0);
    }
  }

  lemma QuietRight(r: Rover, own: string, t: Timed)
    requires R.Started(r.proto) && Allowed(t.event) && (t.event.Timeout? || t.event.Reset? || t.event.Layer?)
    ensures Right(r, own, t)
  {
    assert r.stored + [] == r.stored;
    if t.event.Layer? {
      LayerKeeps(r.proto, R.At(t.x.now, t.x.ts, t.event.layer));
    }
  }

  /** The packets a handler of the rover sends are exactly the messages the event should hand
      over, in order, under consecutive numbers modulo 256: nothing for a message taken for
      later, one for an own message or command, and the queue before all else on activation. */
  lemma EventHandsOver(r: Rover, own: string, t: Timed)
    requires R.Started(r.proto) && Allowed(t.event)
    ensures Steps(r, own, t.event, Apply(r, own, t).rover)
    ensures !t.event.Layer? ==> SentAs(Apply(r, own, t).effects, r.proto, HandedBy(r, own, t), t.x.ts)
  {
    match t.event
    case Session(_) => SessionRight(r, own, t);
    case Probe => SessionRight(r, own, t);
    case Hear(_, _, _, _, _) => HearRight(r, own, t);
    case Timer(_) => MessageRight(r, own, t);
    case Message(_) => MessageRight(r, own, t);
    case _ => QuietRight(r, own, t);
  }

  // ---------------------------------------------------------------- whole runs

  /** Why a message was handed over: as the index-th message taken for later, or directly. */
  datatype Item = Queued(index: nat, message: Stored) | Direct(message: Stored)

  /** The rover; every message it took for later, and how many of those were due to be handed
      over; and all the packets its handlers ever sent, beside the items they should be. */
  datatype History = History(rover: Rover, taken: seq<Stored>, drained: nat, wire: seq<Effect>, items: seq<Item>)

  function QueueItems(taken: seq<Stored>, from: nat): (r: seq<Item>)
    requires from <= |taken|
    ensures |r| == |taken| - from && forall i :: 0 <= i < |r| ==> r[i] == Queued(from + i, taken[from + i])
  {
    seq(|taken| - from, i requires 0 <= i < |taken| - from => Queued(from + i, taken[from + i]))
  }

  function Directs(ms: seq<Stored>): (r: seq<Item>)
    ensures |r| == |ms| && forall i :: 0 <= i < |r| ==> r[i] == Direct(ms[i])
  {
    seq(|ms|, i requires 0 <= i < |ms| => Direct(ms[i]))
  }

  /** What an event should hand over, by the record of messages taken. */
  function ItemsFor(h: History, own: string, t: Timed): seq<Item>
    requires h.drained <= |h.taken|
  {
    if Establishes(h.rover, own, t.event)
    then QueueItems(h.taken, h.drained)
         + Directs(Reported(h.rover, t.event.status) + Reported(h.rover, t.event.telemetry))
    else Directs(OwnMessage(h.rover, own, t))
  }

  function Step(h: History, own: string, t: Timed): (n: History)
    requires h.drained <= |h.taken|
    ensures n.drained <= |n.taken|
  {
    var n := Apply(h.rover, own, t);
    History(n.rover, h.taken + Takes(h.rover, t.event),
            if Establishes(h.rover, own, t.event) then |h.taken| else h.drained,
            h.wire + (if t.event.Layer? then [] else n.effects),
            h.items + ItemsFor(h, own, t))
  }

  function Run(h: History, own: string, ts: seq<Timed>): History
    requires h.drained <= |h.taken|
    decreases |ts|
  {
    if ts == [] then h else Run(Step(h, own, ts[0]), own, ts[1..])
  }

  predicate AllAllowed(ts: seq<Timed>) {
    forall i :: 0 <= i < |ts| ==> Allowed(ts[i].event)
  }

  predicate Fresh(h: History) {
    && R.Started(h.rover.proto) && h.rover.session.state.INACTIVE? && h.rover.stored == []
    && h.taken == [] && h.drained == 0 && h.wire == [] && h.items == []
  }

  /** A packet that carries a message to its recipient, or to the base by default. */
  predicate Carries(e: Effect, m: Stored, base: Endpoint) {
    && e.Send? && e.to == (if Unspecified(m.recipient) then base else m.recipient)
    && e.packet.payload == m.payload && e.packet.header.kind == m.kind && e.packet.header.priority == m.priority
  }

  /** The packets are the items, one by one. */
  ghost predicate AllCarried(wire: seq<Effect>, items: seq<Item>, base: Endpoint) {
    |wire| == |items| && forall i :: 0 <= i < |items| ==> Carries(wire[i], items[i].message, base)
  }

  function IndexOf(item: Item): seq<nat> {
    if item.Queued? then [item.index] else []
  }

  /** The indices of the stored messages among the items, in order. */
  function Indices(items: seq<Item>): seq<nat> {
    if items == [] then [] else IndexOf(items[0]) + Indices(items[1..])
  }

  function Range(a: nat, b: nat): (r: seq<nat>)
    requires a <= b
    ensures |r| == b - a && forall i :: 0 <= i < |r| ==> r[i] == a + i
  {
    seq(b - a, i => a + i)
  }

  ghost predicate FromTaken(items: seq<Item>, taken: seq<Stored>) {
    forall i :: 0 <= i < |items| && items[i].Queued? ==>
      items[i].index < |taken| && items[i].message == taken[items[i].index]
  }

  ghost predicate Conserved(h: History) {
    && R.Started(h.rover.proto) && h.drained <= |h.taken|
    && AllCarried(h.wire, h.items, h.rover.proto.base)
    && Indices(h.items) == Range(0, h.drained) && FromTaken(h.items, h.taken)
    && h.taken[h.drained..] == h.rover.stored
    && (h.rover.session.state.ACTIVE? ==> h.rover.stored == [])
  }

  lemma {:induction false} IndicesConcat(a: seq<Item>, b: seq<Item>)
    ensures Indices(a + b) == Indices(a) + Indices(b)
  {
    if a == [] {
      assert a + b == b;
    } else {
      assert (a + b)[1..] == a[1..] + b;
      IndicesConcat(a[1..], b);
      Associate(IndexOf(a[0]), Indices(a[1..]), Indices(b));
    }
  }

  lemma {:induction false} DirectsHaveNone(ms: seq<Stored>)
    ensures Indices(Directs(ms)) == []
  {
    if ms != [] {
      assert Directs(ms)[1..] == Directs(ms[1..]);
      DirectsHaveNone(ms[1..]);
    }
  }

  lemma {:induction false} QueueHasAll(taken: seq<Stored>, from: nat)
    requires from <= |taken|
    ensures Indices(QueueItems(taken, from)) == Range(from, |taken|)
    decreases |taken| - from
  {
    if from < |taken| {
      assert QueueItems(taken, from)[1..] == QueueItems(taken, from + 1);
      QueueHasAll(taken, from + 1);
    }
  }

  /** The indices an event adds: all that were waiting if it activates, none otherwise. */
  lemma ItemIndices(h: History, own: string, t: Timed)
    requires h.drained <= |h.taken|
    ensures Indices(ItemsFor(h, own, t))
         == if Establishes(h.rover, own, t.event) then Range(h.drained, |h.taken|) else []
  {
    if Establishes(h.rover, own, t.event) {
      var greetings := Reported(h.rover, t.event.status) + Reported(h.rover, t.event.telemetry);
      QueueHasAll(h.taken, h.drained);
      DirectsHaveNone(greetings);
      IndicesConcat(QueueItems(h.taken, h.drained), Directs(greetings));
    } else {
      DirectsHaveNone(OwnMessage(h.rover, own, t));
    }
  }

  /** The items an event adds are the messages it should hand over. */
  lemma ItemsAreHanded(h: History, own: string, t: Timed)
    requires h.drained <= |h.taken| && h.taken[h.drained..] == h.rover.stored
    ensures var items, ms := ItemsFor(h, own, t), HandedBy(h.rover, own, t);
            |items| == |ms| && forall i :: 0 <= i < |ms| ==> items[i].message == ms[i]
    ensures FromTaken(ItemsFor(h, own, t), h.taken)
  {
    if Establishes(h.rover, own, t.event) {
      var queue, a, b := h.rover.stored, Reported(h.rover, t.event.status), Reported(h.rover, t.event.telemetry);
      assert queue + a + b == queue + (a + b);
      forall i | 0 <= i < |queue| ensures QueueItems(h.taken, h.drained)[i].message == queue[i] {
        assert h.taken[h.drained..][i] == h.taken[h.drained + i];
      }
    }
  }

  lemma SentIsCarried(effects: seq<Effect>, p: Proto, ms: seq<Stored>, items: seq<Item>, ts: bv32)
    requires SentAs(effects, p, ms, ts)
    requires |items| == |ms| && forall i :: 0 <= i < |ms| ==> items[i].message == ms[i]
    ensures AllCarried(effects, items, p.base)
  {
  }

  lemma CarriedConcat(a: seq<Effect>, b: seq<Effect>, x: seq<Item>, y: seq<Item>, base: Endpoint)
    requires AllCarried(a, x, base) && AllCarried(b, y, base)
    ensures AllCarried(a + b, x + y, base)
  {
  }

  lemma WireGrows(h: History, own: string, t: Timed)
    requires Conserved(h) && Allowed(t.event)
    ensures AllCarried(Step(h, own, t).wire, Step(h, own, t).items, h.rover.proto.base)
  {
    var items := ItemsFor(h, own, t);
    if t.event.Layer? {
      assert items == [] && h.items + [] == h.items && h.wire + [] == h.wire;
    } else {
      EventHandsOver(h.rover, own, t);
      ItemsAreHanded(h, own, t);
      SentIsCarried(Apply(h.rover, own, t).effects, h.rover.proto, HandedBy(h.rover, own, t), items, t.x.ts);
      CarriedConcat(h.wire, Apply(h.rover, own, t).effects, h.items, items, h.rover.proto.base);
    }
  }

  lemma RangesMeet(a: nat, b: nat)
    requires a <= b
    ensures Range(0, a) + Range(a, b) == Range(0, b)
  {
  }

  lemma TakenConcat(items: seq<Item>, more: seq<Item>, taken: seq<Stored>, took: seq<Stored>)
    requires FromTaken(items, taken) && FromTaken(more, taken)
    ensures FromTaken(items + more, taken + took)
  {
  }

  lemma IndicesGrow(h: History, own: string, t: Timed)
    requires h.drained <= |h.taken| && Indices(h.items) == Range(0, h.drained)
    ensures Indices(h.items + ItemsFor(h, own, t))
         == Range(0, if Establishes(h.rover, own, t.event) then |h.taken| else h.drained)
  {
    ItemIndices(h, own, t);
    IndicesConcat(h.items, ItemsFor(h, own, t));
    RangesMeet(h.drained, |h.taken|);
    assert Range(0, h.drained) + [] == Range(0, h.drained);
  }

  lemma RestGrows(taken: seq<Stored>, drained: nat, took: seq<Stored>)
    requires drained <= |taken|
    ensures (taken + took)[drained..] == taken[drained..] + took && taken[|taken|..] == [] && taken + [] == taken
  {
  }

  lemma QueueGrows(h: History, own: string, t: Timed)
    requires Conserved(h) && Steps(h.rover, own, t.event, Apply(h.rover, own, t).rover)
    ensures var n := Step(h, own, t);
            n.taken[n.drained..] == n.rover.stored && (n.rover.session.state.ACTIVE? ==> n.rover.stored == [])
  {
    RestGrows(h.taken, h.drained, Takes(h.rover, t.event));
  }

  lemma StepConserves(h: History, own: string, t: Timed)
    requires Conserved(h) && Allowed(t.event)
    ensures Conserved(Step(h, own, t))
  {
    EventHandsOver(h.rover, own, t);
    WireGrows(h, own, t);
    IndicesGrow(h, own, t);
    ItemsAreHanded(h, own, t);
    TakenConcat(h.items, ItemsFor(h, own, t), h.taken, Takes(h.rover, t.event));
    QueueGrows(h, own, t);
  }

  lemma {:induction false} RunConserves(h: History, own: string, ts: seq<Timed>)
    requires Conserved(h) && AllAllowed(ts)
    ensures Conserved(Run(h, own, ts))
    decreases |ts|
  {
    if ts != [] {
      assert Allowed(ts[0].event);
      StepConserves(h, own, ts[0]);
      RunConserves(Step(h, own, ts[0]), own, ts[1..]);
    }
  }

  /** In every run without a stop, over all the packets the rover's handlers ever sent: they
      are, one by one, the items due; among those the messages taken for later appear exactly
      once each and in the order taken, up to the ones still in the queue; and the queue is
      empty while the session is active. */
  lemma StoredExactlyOnce(h: History, own: string, ts: seq<Timed>)
    requires Fresh(h) && AllAllowed(ts)
    ensures var r := Run(h, own, ts);
            && AllCarried(r.wire, r.items, r.rover.proto.base)
            && r.drained <= |r.taken| && Indices(r.items) == Range(0, r.drained) && FromTaken(r.items, r.taken)
            && r.taken[r.drained..] == r.rover.stored
            && (r.rover.session.state.ACTIVE? ==> r.rover.stored == [] && r.drained == |r.taken|)
  {
    RunConserves(h, own, ts);
  }

  /** In every run without a stop, an event that takes a message for later hands nothing over,
      any other sends at most one packet, for its own message or command, and activation sends
      the queue, front first, then its status and telemetry, under consecutive numbers. */
  lemma HandedExactly(h: History, own: string, ts: seq<Timed>, t: Timed)
    requires Fresh(h) && AllAllowed(ts) && Allowed(t.event) && !t.event.Layer?
    ensures var r := Run(h, own, ts).rover;
            && SentAs(Apply(r, own, t).effects, r.proto, HandedBy(r, own, t), t.x.ts)
            && (Takes(r, t.event) != [] ==> Apply(r, own, t).effects == [])
            && (!Establishes(r, own, t.event) ==> |Apply(r, own, t).effects| <= 1)
  {
    RunConserves(h, own, ts);
    EventHandsOver(Run(h, own, ts).rover, own, t);
  }
}
