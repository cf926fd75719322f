/** The rover (src/rover/rover.cpp): session handlers over the protocol layer, and the queue
    of messages stored while disconnected. Every method of the class is proved equal to a
    function on values. The JSON text of an outgoing message is a parameter. */
module Rovers {
  import opened Pieces
  import opened Wire
  import opened Codec
  import opened Protocol
  import opened Commands
  import opened RoverSessions

  /** A serialised message and what is needed to send it. */
  datatype Stored = Stored(payload: Bytes, kind: MessageType, priority: Priority, recipient: Endpoint)

  /** `resets` and `probes` count the sequence resets and the first probes that are posted and
      not yet run. */
  datatype Rover = Rover(session: Session, stored: seq<Stored>, lowPower: bool, resets: nat, probes: nat, proto: Proto)

  /** The rover after a handler, the commands it sent, and all it put on the wire. */
  datatype Reaction = Reaction(rover: Rover, commands: seq<Command>, effects: seq<Effect>)

  /** What a handler is given: the clock, the packet timestamp and the text of the command
      it may send. */
  datatype Context = Context(now: int, ts: bv32, text: Bytes)

  function Hand(p: Proto, m: Stored, x: Context): Outcome {
    SendMessage(p, m.payload, m.kind, m.priority, m.recipient, x.now, x.ts)
  }

  /** Carries out a session turn: its commands go to the base as text of the highest priority. */
  function Perform(r: Rover, t: Turn, x: Context): Reaction {
    if t.sent == [] then Reaction(r.(session := t.session), [], [])
    else
      var out := Hand(r.proto, Stored(x.text, CMD, HIGH, r.proto.base), x);
      Reaction(r.(session := t.session, proto := out.proto), t.sent, out.effects)
  }

  /** Sends the queue, front first. */
  function Drain(p: Proto, stored: seq<Stored>, x: Context): Outcome
    decreases |stored|
  {
    if stored == [] then Outcome(p, [])
    else
      var first := Hand(p, stored[0], x);
      var rest := Drain(first.proto, stored[1..], x);
      Outcome(rest.proto, first.effects + rest.effects)
  }

  predicate Suppressed(r: Rover, m: Stored) {
    r.lowPower && m.priority != HIGH
  }

  /** Status and telemetry, which always go to the base: stored while disconnected, sent
      while active, dropped otherwise. */
  function Report(r: Rover, m: Stored, x: Context): Reaction {
    var bound := m.(recipient := r.proto.base);
    if Suppressed(r, m) then Reaction(r, [], [])
    else if r.session.state.DISCONNECTED? then Reaction(r.(stored := r.stored + [bound]), [], [])
    else if r.session.state.ACTIVE? then
      var out := Hand(r.proto, bound, x);
      Reaction(r.(proto := out.proto), [], out.effects)
    else Reaction(r, [], [])
  }

  predicate ForBase(r: Rover, to: Endpoint) {
    Unspecified(to) || to == r.proto.base
  }

  /** An application message: as a report if it is for the base, else sent at once, except
      in low-power mode. */
  function SendAppMessage(r: Rover, m: Stored, x: Context): Reaction {
    if ForBase(r, m.recipient) then Report(r, m, x)
    else if r.lowPower then Reaction(r, [], [])
    else
      var out := Hand(r.proto, m, x);
      Reaction(r.(proto := out.proto), [], out.effects)
  }

  /** The session becomes active: the queue is sent, then a status and a telemetry message. */
  function Establish(r: Rover, status: Stored, telemetry: Stored, x: Context): Reaction {
    if r.session.state.ACTIVE? then Reaction(r, [], [])
    else
      var out := Drain(r.proto, r.stored, x);
      var first := Report(r.(session := Established(r.session).session, stored := [], proto := out.proto), status, x);
      var second := Report(first.rover, telemetry, x);
      Reaction(second.rover, [], out.effects + first.effects + second.effects)
  }

  /** The base is lost: a sequence reset and a probe are posted. */
  function LoseBase(r: Rover): Rover {
    if !r.session.state.ACTIVE? then r
    else r.(session := Disconnect(r.session).session, resets := r.resets + 1, probes := r.probes + 1)
  }

  function PacketTimeout(r: Rover, recipient: Endpoint): Rover {
    if r.session.state.ACTIVE? && recipient == r.proto.base then LoseBase(r) else r
  }

  function PostedReset(r: Rover): Rover {
    if r.resets == 0 then r else r.(resets := r.resets - 1, proto := ResetSequence(r.proto))
  }

  /** The posted probe fires at once. */
  function PostedProbe(r: Rover, x: Context): Reaction {
    if r.probes == 0 then Reaction(r, [], [])
    else Perform(r.(probes := r.probes - 1), ProbeTimer(r.session), x)
  }

  function Halted(r: Rover): Rover {
    r.(session := Stopped(r.session).session, stored := [], proto := ShutDown(r.proto))
  }

  /** The commands that only the base may give. */
  predicate BaseCommand(c: Command) {
    c.SESSION_ACCEPT? || c.SESSION_ESTABLISHED? || c.SET_LOW_POWER? || c.SET_TARGET_COORD?
  }

  predicate Discovery(c: Command) {
    c.ROVER_ANNOUNCE? || c.ROVER_DISCOVER?
  }

  /** A command from the network: those of the base count only from the base's endpoint, and
      none from a sender with the rover's own id. */
  function Route(r: Rover, own: string, c: Command, sender: string, from: Endpoint,
                 status: Stored, telemetry: Stored, x: Context): Reaction {
    if sender == own || from != r.proto.base then Reaction(r, [], [])
    else if c.SESSION_ACCEPT? then Perform(r, Accept(r.session), x)
    else if c.SESSION_ESTABLISHED? then Establish(r, status, telemetry, x)
    else if c.SET_LOW_POWER? then Reaction(r.(lowPower := c.on), [], [])
    else Reaction(r, [], [])
  }

  /** Which commands reach the application. */
  predicate ToApplication(own: string, c: Command, sender: string) {
    sender != own && !BaseCommand(c) && !Discovery(c)
  }

  // ---------------------------------------------------------------- draining

  lemma {:induction false} DrainSnoc(p: Proto, stored: seq<Stored>, last: Stored, x: Context)
    ensures var before := Drain(p, stored, x);
            var step := Hand(before.proto, last, x);
            Drain(p, stored + [last], x) == Outcome(step.proto, before.effects + step.effects)
    decreases |stored|
  {
    var all := stored + [last];
    if stored == [] {
      assert all[1..] == [];
    } else {
      var first := Hand(p, stored[0], x);
      assert all[1..] == stored[1..] + [last];
      DrainSnoc(first.proto, stored[1..], last, x);
      var before := Drain(first.proto, stored[1..], x);
      Associate(first.effects, before.effects, Hand(before.proto, last, x).effects);
    }
  }

  // ---------------------------------------------------------------- the class

  class RoverNode {
    const id: string
    const protocol: LumenProtocol
    var sessionState: SessionState
    var handshakeRetryCount: nat
    var storedPackets: seq<Stored>
    var lowPowerMode: bool
    var resetsPosted: nat
    var probesPosted: nat

    function View(): Rover
      reads this, protocol, protocol.manager, protocol.reassembler
    {
      Rover(Session(sessionState, handshakeRetryCount), storedPackets, lowPowerMode, resetsPosted, probesPosted,
            protocol.View())
    }

    constructor (id: string, protocol: LumenProtocol)
      ensures View() == Rover(Session(INACTIVE, 0), [], false, 0, 0, protocol.View())
      ensures this.id == id && this.protocol == protocol
    {
      this.id, this.protocol := id, protocol;
      sessionState, handshakeRetryCount, storedPackets := INACTIVE, 0, [];
      lowPowerMode, resetsPosted, probesPosted := false, 0, 0;
    }

    method SendCommandToBase(c: Command, x: Context) returns (commands: seq<Command>, effects: seq<Effect>)
      modifies protocol, protocol.manager
      ensures Reaction(View(), commands, effects)
           == Perform(old(View()), Turn(old(View()).session, SendCommand(old(View()).session, c)), x)
    {
      commands, effects := [], [];
      if sessionState != DISCONNECTED || c.SESSION_INIT? {
        commands := [c];
        effects := protocol.SendMessageTo(x.text, CMD, HIGH, protocol.base, x.now, x.ts);
      }
    }

    method InitiateHandshake(x: Context) returns (commands: seq<Command>, effects: seq<Effect>)
      modifies this, protocol, protocol.manager
      ensures Reaction(View(), commands, effects) == Perform(old(View()), Initiate(old(View()).session), x)
    {
      commands, effects := [], [];
      if sessionState != INACTIVE && sessionState != DISCONNECTED {
        return;
      }
      sessionState, handshakeRetryCount := HANDSHAKE_INIT, 0;
      commands, effects := SendCommandToBase(SESSION_INIT, x);
    }

    method HandleHandshakeTimer(x: Context) returns (commands: seq<Command>, effects: seq<Effect>)
      modifies this, protocol, protocol.manager
      ensures Reaction(View(), commands, effects) == Perform(old(View()), HandshakeTimer(old(View()).session), x)
    {
      commands, effects := [], [];
      if sessionState == HANDSHAKE_INIT || sessionState == HANDSHAKE_ACCEPT {
        if handshakeRetryCount < MAX_HANDSHAKE_RETRIES {
          handshakeRetryCount := handshakeRetryCount + 1;
          if sessionState == HANDSHAKE_INIT {
            commands, effects := SendCommandToBase(SESSION_INIT, x);
          } else {
            commands, effects := SendCommandToBase(SESSION_CONFIRM, x);
          }
        } else {
          HandleBaseDisconnect();
        }
      }
    }

    method HandleProbeTimer(x: Context) returns (commands: seq<Command>, effects: seq<Effect>)
      modifies protocol, protocol.manager
      ensures Reaction(View(), commands, effects) == Perform(old(View()), ProbeTimer(old(View()).session), x)
    {
      commands, effects := [], [];
      if sessionState == DISCONNECTED {
        commands, effects := SendCommandToBase(SESSION_INIT, x);
      }
    }

    method HandleSessionAccept(x: Context) returns (commands: seq<Command>, effects: seq<Effect>)
      modifies this, protocol, protocol.manager
      ensures Reaction(View(), commands, effects) == Perform(old(View()), Accept(old(View()).session), x)
    {
      commands, effects := [], [];
      if sessionState == HANDSHAKE_INIT || sessionState == DISCONNECTED {
        sessionState := HANDSHAKE_ACCEPT;
        commands, effects := SendCommandToBase(SESSION_CONFIRM, x);
      }
    }

    /** The loop that empties the queue. */
    method SendStoredPackets(x: Context) returns (effects: seq<Effect>)
      modifies this`storedPackets, protocol, protocol.manager
      ensures var was := old(View());
              var out := Drain(was.proto, was.stored, x);
              View() == was.(stored := [], proto := out.proto) && effects == out.effects
    {
      effects := [];
      ghost var all, start := storedPackets, protocol.View();
      ghost var done: nat := 0;
      while storedPackets != []
        invariant done <= |all| && storedPackets == all[done..]
        invariant Outcome(protocol.View(), effects) == Drain(start, all[..done], x)
        decreases |storedPackets|
      {
        var m := storedPackets[0];
        assert all[..done + 1] == all[..done] + [m];
        DrainSnoc(start, all[..done], m, x);
        var more := protocol.SendMessageTo(m.payload, m.kind, m.priority, m.recipient, x.now, x.ts);
        effects := effects + more;
        storedPackets := storedPackets[1..];
        done := done + 1;
      }
      assert all[..done] == all;
    }

    method SendReport(m: Stored, x: Context) returns (effects: seq<Effect>)
      modifies this`storedPackets, protocol, protocol.manager
      ensures Reaction(View(), [], effects) == Report(old(View()), m, x)
    {
      effects := [];
      if lowPowerMode && m.priority != HIGH {
        return;
      }
      if sessionState == DISCONNECTED {
        storedPackets := storedPackets + [m.(recipient := protocol.base)];
      } else if sessionState == ACTIVE {
        effects := protocol.SendMessageTo(m.payload, m.kind, m.priority, protocol.base, x.now, x.ts);
      }
    }

    method SendMessage(m: Stored, x: Context) returns (effects: seq<Effect>)
      modifies this`storedPackets, protocol, protocol.manager
      ensures Reaction(View(), [], effects) == SendAppMessage(old(View()), m, x)
    {
      effects := [];
      var toBase := Unspecified(m.recipient) || m.recipient == protocol.base;
      if lowPowerMode && m.priority != HIGH {
        return;
      }
      if sessionState == DISCONNECTED && toBase {
        storedPackets := storedPackets + [m.(recipient := protocol.base)];
      } else if sessionState == ACTIVE || !toBase {
        if lowPowerMode && !toBase {
          return;
        }
        effects := protocol.SendMessageTo(m.payload, m.kind, m.priority,
                                          if toBase then protocol.base else m.recipient, x.now, x.ts);
      }
    }

    method HandleSessionEstablished(status: Stored, telemetry: Stored, x: Context) returns (effects: seq<Effect>)
      modifies this, protocol, protocol.manager
      ensures Reaction(View(), [], effects) == Establish(old(View()), status, telemetry, x)
    {
      effects := [];
      if sessionState != ACTIVE {
        sessionState, handshakeRetryCount := ACTIVE, 0;
        effects := SendStoredPackets(x);
        var first := SendReport(status, x);
        var second := SendReport(telemetry, x);
        effects := effects + first + second;
      }
    }

    method RouteMessage(c: Command, sender: string, from: Endpoint, status: Stored, telemetry: Stored, x: Context)
      returns (commands: seq<Command>, effects: seq<Effect>, toApplication: bool)
      modifies this, protocol, protocol.manager
      ensures Reaction(View(), commands, effects) == Route(old(View()), id, c, sender, from, status, telemetry, x)
      ensures toApplication == ToApplication(id, c, sender)
    {
      commands, effects, toApplication := [], [], false;
      if sender == id {
        return;
      }
      if c.SESSION_ACCEPT? || c.SESSION_ESTABLISHED? || c.SET_LOW_POWER? || c.SET_TARGET_COORD? {
        if from == protocol.base {
          if c.SESSION_ACCEPT? {
            commands, effects := HandleSessionAccept(x);
          } else if c.SESSION_ESTABLISHED? {
            effects := HandleSessionEstablished(status, telemetry, x);
          } else if c.SET_LOW_POWER? {
            if lowPowerMode != c.on {
              lowPowerMode := c.on;
            }
          }
        }
        return;
      }
      toApplication := !c.ROVER_ANNOUNCE? && !c.ROVER_DISCOVER?;
    }

    method HandleBaseDisconnect()
      modifies this
      ensures View() == LoseBase(old(View()))
    {
      if sessionState != ACTIVE {
        return;
      }
      sessionState := DISCONNECTED;
      resetsPosted, probesPosted := resetsPosted + 1, probesPosted + 1;
    }

    method HandlePacketTimeout(recipient: Endpoint)
      modifies this
      ensures View() == PacketTimeout(old(View()), recipient)
    {
      if sessionState == ACTIVE && recipient == protocol.base {
        HandleBaseDisconnect();
      }
    }

    method RunPostedReset()
      modifies this, protocol, protocol.manager, protocol.reassembler
      ensures View() == PostedReset(old(View()))
    {
      if resetsPosted > 0 {
        resetsPosted := resetsPosted - 1;
        protocol.ResetSequenceNumber();
      }
    }

    method RunPostedProbe(x: Context) returns (commands: seq<Command>, effects: seq<Effect>)
      modifies this, protocol, protocol.manager
      ensures Reaction(View(), commands, effects) == PostedProbe(old(View()), x)
    {
      commands, effects := [], [];
      if probesPosted > 0 {
        probesPosted := probesPosted - 1;
        commands, effects := HandleProbeTimer(x);
      }
    }

    /** Stops the protocol layer and forgets the session and the queue. */
    method Stop()
      modifies this, protocol.manager, protocol.reassembler`running
      ensures View() == Halted(old(View()))
    {
      protocol.StopProtocol();
      sessionState, storedPackets := INACTIVE, [];
    }
  }
}
