/** What a rover does with each message and command, over every run, with its low-power mode
    said by what the base commanded. */
module RoverGate {
  import opened Wire
  import opened Codec
  import opened Protocol
  import opened Commands
  import opened Rovers
  import opened StoredQueue
  import S = RoverSessions
  import R = RoverEvents

  /** The rover, its own id, whether the base last commanded it to save power, and the commands
      that reached its application. */
  datatype Watch = Watch(rover: Rover, low: bool, ups: seq<Command>)

  /** Word from the base, and not from the rover itself. */
  predicate FromBase(r: Rover, own: string, e: Event) {
    e.Hear? && e.sender != own && e.from == r.proto.base
  }

  function Look(w: Watch, own: string, t: Timed): Watch {
    Watch(Apply(w.rover, own, t).rover,
          if FromBase(w.rover, own, t.event) && t.event.command.SET_LOW_POWER? then t.event.command.on else w.low,
          w.ups + (if t.event.Hear? && ToApplication(own, t.event.command, t.event.sender) then [t.event.command]
                   else []))
  }

  function LookAll(w: Watch, own: string, ts: seq<Timed>): Watch
    decreases |ts|
  {
    if ts == [] then w else LookAll(Look(w, own, ts[0]), own, ts[1..])
  }

  predicate New(w: Watch) {
    R.Started(w.rover.proto) && w.rover.session.state.INACTIVE? && !w.rover.lowPower && !w.low && w.ups == []
  }

  predicate Agrees(w: Watch, base: Endpoint) {
    R.Started(w.rover.proto) && w.rover.proto.base == base && w.rover.lowPower == w.low
  }

  lemma ReportKeepsMode(r: Rover, m: Stored, x: Context)
    ensures Report(r, m, x).rover.lowPower == r.lowPower
  {
  }

  lemma EstablishKeepsMode(r: Rover, status: Stored, telemetry: Stored, x: Context)
    ensures Establish(r, status, telemetry, x).rover.lowPower == r.lowPower
  {
  }

  /** Only the base's command changes the mode. */
  lemma ModeAfter(r: Rover, own: string, t: Timed)
    ensures Apply(r, own, t).rover.lowPower
         == if FromBase(r, own, t.event) && t.event.command.SET_LOW_POWER? then t.event.command.on else r.lowPower
  {
    if t.event.Hear? {
      EstablishKeepsMode(r, t.event.status, t.event.telemetry, t.x);
    } else if t.event.Timer? {
      ReportKeepsMode(r, t.event.report, t.x);
    } else if t.event.Message? {
      ReportKeepsMode(r, t.event.message, t.x);
    }
  }

  lemma {:induction false} LooksAgree(w: Watch, own: string, ts: seq<Timed>, base: Endpoint)
    requires Agrees(w, base) && AllAllowed(ts)
    ensures Agrees(LookAll(w, own, ts), base)
    decreases |ts|
  {
    if ts != [] {
      assert Allowed(ts[0].event);
      EventHandsOver(w.rover, own, ts[0]);
      ModeAfter(w.rover, own, ts[0]);
      LooksAgree(Look(w, own, ts[0]), own, ts[1..], base);
    }
  }

  // ---------------------------------------------------------------- the theorems

  /** The packet that carries a message. */
  function Carrier(m: Stored, p: Proto, to: Endpoint, ts: bv32): Effect {
    Send(NewPacket(m.kind, m.priority, p.current, ts, m.payload), to)
  }

  /** In every run without a stop: a report, or a message to no one in particular or to the
      base, is dropped if the base last commanded low power and it is not of high priority;
      else it is stored while disconnected, sent to the base at once while active, and dropped
      in every other state. */
  lemma BaseMessageFate(w: Watch, own: string, ts: seq<Timed>, t: Timed, m: Stored)
    requires New(w) && AllAllowed(ts)
    requires t.event == Timer(m)
             || (t.event == Message(m) && (m.recipient.address == 0 || m.recipient == w.rover.proto.base))
    ensures var r, low := LookAll(w, own, ts).rover, LookAll(w, own, ts).low;
            var n := Apply(r, own, t);
            var base, keep := w.rover.proto.base, !low || m.priority == HIGH;
            && n.rover.stored
               == r.stored + (if keep && r.session.state.DISCONNECTED? then [m.(recipient := base)] else [])
            && n.effects
               == (if keep && r.session.state.ACTIVE? then [Carrier(m, r.proto, base, t.x.ts)] else [])
  {
    LooksAgree(w, own, ts, w.rover.proto.base);
    var r := LookAll(w, own, ts).rover;
    ReportHands(r, m, t.x);
    HandOne(r.proto, Bound(r, m), t.x);
    assert r.stored + [] == r.stored;
  }

  /** In every run without a stop: a message to anyone else is sent at once in whatever state,
      and never stored, unless the base last commanded low power; then it is dropped, whatever
      its priority. */
  lemma OtherMessageFate(w: Watch, own: string, ts: seq<Timed>, t: Timed)
    requires New(w) && AllAllowed(ts) && t.event.Message?
    requires t.event.message.recipient.address != 0 && t.event.message.recipient != w.rover.proto.base
    ensures var r, low, m := LookAll(w, own, ts).rover, LookAll(w, own, ts).low, t.event.message;
            var n := Apply(r, own, t);
            && n.rover.stored == r.stored
            && n.effects == if low then [] else [Carrier(m, r.proto, m.recipient, t.x.ts)]
  {
    LooksAgree(w, own, ts, w.rover.proto.base);
    var r := LookAll(w, own, ts).rover;
    HandOne(r.proto, t.event.message, t.x);
  }

  /** In every run without a stop: a command of the application goes to the base, with high
      priority, in every state but one; while disconnected nothing is sent but SESSION_INIT. */
  lemma CommandFate(w: Watch, own: string, ts: seq<Timed>, c: Command, x: Context)
    requires New(w) && AllAllowed(ts)
    ensures var r := LookAll(w, own, ts).rover;
            var n := Apply(r, own, At(x, Session(S.Say(c))));
            if r.session.state.DISCONNECTED? && !c.SESSION_INIT? then n.commands == [] && n.effects == []
            else n.commands == [c]
                 && n.effects == [Send(NewPacket(CMD, HIGH, r.proto.current, x.ts, x.text), w.rover.proto.base)]
  {
    LooksAgree(w, own, ts, w.rover.proto.base);
    var r := LookAll(w, own, ts).rover;
    HandOne(r.proto, CommandText(r, x), x);
  }

  /** In every run: of the commands heard, whatever the session and the endpoint, exactly those
      reach the application that another sender gave and that are neither the base's to give
      nor for discovery. */
  lemma CommandsUp(w: Watch, own: string, ts: seq<Timed>, t: Timed)
    requires New(w) && t.event.Hear?
    ensures var r, c := LookAll(w, own, ts), t.event.command;
            Look(r, own, t).ups
            == r.ups + if t.event.sender != own && (c.SESSION_INIT? || c.SESSION_CONFIRM? || c.OTHER?) then [c] else []
  {
  }
}
