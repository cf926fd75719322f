/** The base station's session (src/base/base_station.cpp). Every method of the class is
    proved equal to a function on values; the lemmas speak of all runs of its handlers. */
module BaseStations {
  import opened Wire
  import opened Protocol
  import opened Commands

  datatype SessionState = INACTIVE | HANDSHAKE_INIT | HANDSHAKE_ACCEPT | ACTIVE

  /** `flag` is the protocol layer's session-active flag. */
  datatype Base = Base(state: SessionState, roverId: string, rover: Endpoint, flag: bool)

  /** The base after a handler, and the commands it sent. */
  datatype Reply = Reply(base: Base, sent: seq<(Command, Endpoint)>)

  /** Commands go to the recorded endpoint, while active or to accept a handshake. */
  function SendCommand(b: Base, c: Command): seq<(Command, Endpoint)> {
    if (b.state.ACTIVE? || (b.state.HANDSHAKE_ACCEPT? && c.SESSION_ACCEPT?)) && !Unspecified(b.rover)
    then [(c, b.rover)] else []
  }

  function Init(b: Base, id: string, from: Endpoint): Reply {
    var flag := b.flag && !b.state.ACTIVE?;
    if b.state.ACTIVE? && b.roverId == id && b.rover == from then Reply(b, SendCommand(b, SESSION_ESTABLISHED))
    else if !b.state.INACTIVE? && b.roverId != id then Reply(b.(flag := flag), [])
    else if b.roverId == id || b.roverId == "" then
      var accepted := Base(HANDSHAKE_ACCEPT, id, from, flag);
      Reply(accepted, SendCommand(accepted, SESSION_ACCEPT))
    else Reply(b.(flag := flag), [])
  }

  function Confirm(b: Base, id: string, from: Endpoint): Reply {
    if !b.state.HANDSHAKE_ACCEPT? || b.roverId != id || b.rover != from then Reply(b, [])
    else
      var active := b.(state := ACTIVE, flag := true);
      Reply(active, SendCommand(active, SESSION_ESTABLISHED))
  }

  predicate SessionCommand(c: Command) {
    c.SESSION_INIT? || c.SESSION_CONFIRM?
  }

  /** Whether a message other than a session command is passed to the application. */
  predicate Admits(b: Base, id: string, from: Endpoint) {
    b.state.ACTIVE? && b.roverId == id && b.rover == from
  }

  /** Whether a message reaches the application. Messages other than commands, telemetry and
      status, count as commands that are not of the session. */
  predicate PassesUp(b: Base, c: Command, id: string, from: Endpoint) {
    !SessionCommand(c) && Admits(b, id, from)
  }

  function Route(b: Base, c: Command, id: string, from: Endpoint): Reply {
    if c.SESSION_INIT? then Init(b, id, from)
    else if c.SESSION_CONFIRM? then Confirm(b, id, from)
    else Reply(b, [])
  }

  function Started(b: Base): Base {
    b.(flag := false)
  }

  function Stopped(b: Base): Base {
    Base(INACTIVE, "", UNSPECIFIED, false)
  }

  // ---------------------------------------------------------------- the class

  class BaseStation {
    const protocol: LumenProtocol
    var sessionState: SessionState
    var connectedRoverId: string
    var roverEndpoint: Endpoint

    function View(): Base
      reads this, protocol
    {
      Base(sessionState, connectedRoverId, roverEndpoint, protocol.sessionActive)
    }

    constructor (protocol: LumenProtocol)
      ensures View() == Base(INACTIVE, "", UNSPECIFIED, protocol.sessionActive) && this.protocol == protocol
    {
      this.protocol := protocol;
      sessionState, connectedRoverId, roverEndpoint := INACTIVE, "", UNSPECIFIED;
    }

    /** Sets the flag and leaves the rest of the protocol layer alone. */
    method SetSessionActive(active: bool)
      modifies protocol`sessionActive
      ensures View() == old(View()).(flag := active)
      ensures protocol.View() == old(protocol.View()).(sessionActive := active)
    {
      protocol.sessionActive := active;
    }

    method Send(c: Command) returns (sent: seq<(Command, Endpoint)>)
      ensures sent == SendCommand(View(), c)
    {
      sent := [];
      var session := c.SESSION_ACCEPT? || c.SESSION_ESTABLISHED?;
      if sessionState == ACTIVE || (sessionState == HANDSHAKE_ACCEPT && c.SESSION_ACCEPT?)
         || (sessionState == ACTIVE && c.SESSION_ESTABLISHED?) {
        if !Unspecified(roverEndpoint) {
          if session || sessionState == ACTIVE {
            sent := [(c, roverEndpoint)];
          }
        }
      }
    }

    method HandleSessionInit(id: string, from: Endpoint) returns (sent: seq<(Command, Endpoint)>)
      modifies this, protocol`sessionActive
      ensures Reply(View(), sent) == Init(old(View()), id, from)
      ensures protocol.View() == old(protocol.View()).(sessionActive := protocol.sessionActive)
    {
      sent := [];
      if sessionState == ACTIVE && connectedRoverId == id && roverEndpoint == from {
        sent := Send(SESSION_ESTABLISHED);
        return;
      }
      var accept, reset := false, false;
      if sessionState != INACTIVE && connectedRoverId != id {
        reset := sessionState == ACTIVE;
      } else if connectedRoverId == id || connectedRoverId == "" {
        if sessionState == ACTIVE && connectedRoverId == id {
          reset := true;
        } else if connectedRoverId == id && roverEndpoint != from {
          reset := sessionState == ACTIVE;
        } else if sessionState != INACTIVE {
          reset := sessionState == ACTIVE;
        }
        sessionState, connectedRoverId, roverEndpoint := HANDSHAKE_ACCEPT, id, from;
        accept := true;
      } else {
        reset := sessionState == ACTIVE;
      }
      if reset {
        SetSessionActive(false);
      }
      if accept {
        sent := Send(SESSION_ACCEPT);
      }
    }

    method HandleSessionConfirm(id: string, from: Endpoint) returns (sent: seq<(Command, Endpoint)>)
      modifies this, protocol`sessionActive
      ensures Reply(View(), sent) == Confirm(old(View()), id, from)
      ensures protocol.View() == old(protocol.View()).(sessionActive := protocol.sessionActive)
    {
      sent := [];
      if sessionState != HANDSHAKE_ACCEPT || connectedRoverId != id || roverEndpoint != from {
        return;
      }
      sessionState := ACTIVE;
      SetSessionActive(true);
      sent := Send(SESSION_ESTABLISHED);
    }

    /** A command from the network: handled here, or passed to the application. */
    method RouteMessage(c: Command, id: string, from: Endpoint)
      returns (sent: seq<(Command, Endpoint)>, toApplication: bool)
      modifies this, protocol`sessionActive
      ensures Reply(View(), sent) == Route(old(View()), c, id, from)
      ensures toApplication == PassesUp(old(View()), c, id, from)
    {
      sent, toApplication := [], false;
      if c.SESSION_INIT? {
        sent := HandleSessionInit(id, from);
        return;
      }
      if c.SESSION_CONFIRM? {
        sent := HandleSessionConfirm(id, from);
        return;
      }
      if sessionState == ACTIVE {
        toApplication := connectedRoverId == id && roverEndpoint == from;
      } else if sessionState == HANDSHAKE_ACCEPT {
        toApplication := c.SESSION_CONFIRM? && connectedRoverId == id && roverEndpoint == from;
      }
    }

    method Start(now: int)
      modifies protocol, protocol.manager, protocol.reassembler
      ensures View() == Started(old(View()))
      ensures protocol.View() == StartUp(old(protocol.View()), now).(sessionActive := false)
    {
      protocol.StartProtocol(now);
      SetSessionActive(false);
    }

    /** Clears the session and stops the protocol layer. */
    method Stop()
      modifies this, protocol`sessionActive, protocol.manager, protocol.reassembler`running
      ensures View() == Stopped(old(View()))
      ensures protocol.View() == ShutDown(old(protocol.View()).(sessionActive := false))
    {
      SetSessionActive(false);
      protocol.StopProtocol();
      sessionState, connectedRoverId, roverEndpoint := INACTIVE, "", UNSPECIFIED;
    }
  }

  // ---------------------------------------------------------------- runs

  datatype Event =
    | Hear(command: Command, id: string, from: Endpoint)
    | Start
    | Stop

  function Apply(b: Base, e: Event): Base {
    match e
    case Hear(c, id, from) => Route(b, c, id, from).base
    case Start => Started(b)
    case Stop => Stopped(b)
  }

  function Run(b: Base, es: seq<Event>): Base
    decreases |es|
  {
    if es == [] then b else Run(Apply(b, es[0]), es[1..])
  }

  predicate Fresh(b: Base) {
    b == Base(INACTIVE, "", UNSPECIFIED, false)
  }

  /** No rover and no endpoint is recorded while inactive, and the flag is set only while
      active. */
  predicate Sane(b: Base) {
    && !b.state.HANDSHAKE_INIT?
    && (b.state.INACTIVE? ==> b.roverId == "" && b.rover == UNSPECIFIED)
    && (b.flag ==> b.state.ACTIVE?)
  }

  lemma {:induction false} RunStaysSane(b: Base, es: seq<Event>)
    requires Sane(b)
    ensures Sane(Run(b, es))
    decreases |es|
  {
    if es != [] {
      RunStaysSane(Apply(b, es[0]), es[1..]);
    }
  }

  /** The last branch of the INIT handler: another rover is recorded, but no session. */
  predicate LastBranch(b: Base, id: string, from: Endpoint) {
    && !(b.state.ACTIVE? && b.roverId == id && b.rover == from)
    && !(!b.state.INACTIVE? && b.roverId != id)
    && !(b.roverId == id || b.roverId == "")
  }

  /** In every run, stops included: HANDSHAKE_INIT is never entered, the last branch of the
      INIT handler is never taken, the flag implies an active session, nothing is recorded
      while inactive, and the session becomes active only by a CONFIRM from the recorded rover
      at the recorded endpoint. */
  lemma SessionDiscipline(b: Base, es: seq<Event>, e: Event)
    requires Fresh(b)
    ensures var r, n := Run(b, es), Apply(Run(b, es), e);
            && !r.state.HANDSHAKE_INIT?
            && (e.Hear? ==> !LastBranch(r, e.id, e.from))
            && (r.flag ==> r.state.ACTIVE?)
            && (r.state.INACTIVE? ==> r.roverId == "" && r.rover == UNSPECIFIED)
            && (!r.state.ACTIVE? && n.state.ACTIVE? ==>
                  && e.Hear? && e.command.SESSION_CONFIRM? && e.id == r.roverId && e.from == r.rover
                  && r.state.HANDSHAKE_ACCEPT?)
  {
    RunStaysSane(b, es);
  }

  /** What a command from the network can make the base do, in every run: an INIT is answered
      if the base is free or records that rover, by SESSION_ESTABLISHED at the endpoint of the
      active session and by SESSION_ACCEPT anywhere else; a CONFIRM is answered if it is the one
      awaited; nothing else is answered, or changes anything but the flag. An endpoint that is
      unspecified gets no answer. */
  lemma AnswersExactly(b: Base, es: seq<Event>, c: Command, id: string, from: Endpoint)
    requires Fresh(b)
    ensures var r := Run(b, es);
            var n := Route(r, c, id, from);
            var mine, here := r.state.INACTIVE? || r.roverId == id, r.rover == from;
            var answer :=
              if c.SESSION_INIT? && mine then [if r.state.ACTIVE? && here then SESSION_ESTABLISHED else SESSION_ACCEPT]
              else if c.SESSION_CONFIRM? && r.state.HANDSHAKE_ACCEPT? && mine && here then [SESSION_ESTABLISHED]
              else [];
            && n.sent == (if answer == [] || from.address == 0 then [] else [(answer[0], from)])
            && (answer == [] ==> n.base == r.(flag := n.base.flag))
            && (answer != [] ==> n.base.roverId == id && n.base.rover == from && !n.base.state.INACTIVE?)
  {
    RunStaysSane(b, es);
  }

  /** Once a rover is recorded, every later state of a run without stops records the same
      one, and a session is under way. */
  lemma {:induction false} OwnerIsFixed(b: Base, es: seq<Event>)
    requires Sane(b) && !b.state.INACTIVE? && Stop !in es
    ensures Run(b, es).roverId == b.roverId && !Run(b, es).state.INACTIVE?
    decreases |es|
  {
    if es != [] {
      assert es[0] in es && Stop !in es[1..];
      OwnerIsFixed(Apply(b, es[0]), es[1..]);
    }
  }

  lemma {:induction false} RunConcat(b: Base, es: seq<Event>, fs: seq<Event>)
    ensures Run(b, es + fs) == Run(Run(b, es), fs)
    decreases |es|
  {
    if es == [] {
      assert es + fs == fs;
    } else {
      assert (es + fs)[1..] == es[1..] + fs;
      RunConcat(Apply(b, es[0]), es[1..], fs);
    }
  }

  /** In every run without stops the recorded id is set at most once: whatever prefix has
      recorded a rover, the whole run ends with that rover. */
  lemma RecordedOnce(b: Base, es: seq<Event>, fs: seq<Event>)
    requires Fresh(b) && Stop !in es + fs && (!Run(b, es).state.INACTIVE? || Run(b, es).roverId != "")
    ensures Run(b, es + fs).roverId == Run(b, es).roverId
  {
    RunStaysSane(b, es);
    RunConcat(b, es, fs);
    forall e | e in fs ensures e != Stop {
      assert e in es + fs;
    }
    OwnerIsFixed(Run(b, es), fs);
  }

  // ---------------------------------------------------------------- flag and state

  /** The events that clear the flag while the session stays active: an INIT from another
      rover, and a second start. */
  predicate Disturbs(b: Base, e: Event) {
    b.state.ACTIVE? && (e.Start? || (e.Hear? && e.command.SESSION_INIT? && e.id != b.roverId))
  }

  /** Whether the session was disturbed since it last became active. */
  function Disturbed(b: Base, es: seq<Event>, before: bool): bool
    decreases |es|
  {
    if es == [] then before
    else
      var n := Apply(b, es[0]);
      Disturbed(n, es[1..], n.state.ACTIVE? && b.state.ACTIVE? && (before || Disturbs(b, es[0])))
  }

  lemma {:induction false} FlagFollows(b: Base, es: seq<Event>, before: bool)
    requires Sane(b) && b.flag == (b.state.ACTIVE? && !before)
    ensures Run(b, es).flag == (Run(b, es).state.ACTIVE? && !Disturbed(b, es, before))
    decreases |es|
  {
    if es != [] {
      var n := Apply(b, es[0]);
      FlagFollows(n, es[1..], n.state.ACTIVE? && b.state.ACTIVE? && (before || Disturbs(b, es[0])));
    }
  }

  /** In every run the protocol's flag is set exactly when the session is active and was not
      disturbed since it became so. */
  lemma FlagIsExact(b: Base, es: seq<Event>)
    requires Fresh(b)
    ensures Run(b, es).flag <==> Run(b, es).state.ACTIVE? && !Disturbed(b, es, false)
  {
    FlagFollows(b, es, false);
  }

  /** No event of the run disturbs the session. */
  predicate Undisturbed(b: Base, es: seq<Event>)
    decreases |es|
  {
    es == [] || (!Disturbs(b, es[0]) && Undisturbed(Apply(b, es[0]), es[1..]))
  }

  lemma {:induction false} NeverDisturbed(b: Base, es: seq<Event>)
    requires Undisturbed(b, es)
    ensures !Disturbed(b, es, false)
    decreases |es|
  {
    if es != [] {
      NeverDisturbed(Apply(b, es[0]), es[1..]);
    }
  }

  /** Flag and state agree in every run in which no other rover's INIT arrives, and no second
      start comes, while the session is active. */
  lemma FlagAgrees(b: Base, es: seq<Event>)
    requires Fresh(b) && Undisturbed(b, es)
    ensures Run(b, es).flag <==> Run(b, es).state.ACTIVE?
  {
    NeverDisturbed(b, es);
    FlagIsExact(b, es);
  }

  /** Such a session is reached: a rover connects, then another one's INIT arrives. */
  lemma DisturbedIsReached(b: Base, id: string, from: Endpoint, other: string, elsewhere: Endpoint)
    requires Fresh(b) && other != id
    ensures Run(b, [Hear(SESSION_INIT, id, from), Hear(SESSION_CONFIRM, id, from),
                    Hear(SESSION_INIT, other, elsewhere)])
         == Base(ACTIVE, id, from, false)
  {
    var last := [Hear(SESSION_INIT, other, elsewhere)];
    var later := [Hear(SESSION_CONFIRM, id, from)] + last;
    assert last[1..] == [] && later[1..] == last;
    assert ([Hear(SESSION_INIT, id, from)] + later)[1..] == later;
    assert Run(Base(ACTIVE, id, from, true), last) == Base(ACTIVE, id, from, false);
    assert Run(Base(HANDSHAKE_ACCEPT, id, from, false), later) == Base(ACTIVE, id, from, false);
    assert [Hear(SESSION_INIT, id, from)] + later
        == [Hear(SESSION_INIT, id, from), Hear(SESSION_CONFIRM, id, from), Hear(SESSION_INIT, other, elsewhere)];
  }

  /** What can end a disturbed session: a stop, or the recorded rover at another endpoint. */
  predicate Ends(b: Base, e: Event) {
    e.Stop? || (e.Hear? && e.command.SESSION_INIT? && e.id == b.roverId && e.from != b.rover)
  }

  /** A disturbed session stays active and without its flag until one of those events: no
      INIT or CONFIRM from the connected rover repairs it. */
  lemma {:induction false} DisturbedStays(b: Base, es: seq<Event>)
    requires Sane(b) && b.state.ACTIVE? && !b.flag && forall e :: e in es ==> !Ends(b, e)
    ensures Run(b, es) == b
    decreases |es|
  {
    if es != [] {
      assert !Ends(b, es[0]);
      assert Apply(b, es[0]) == b;
      DisturbedStays(b, es[1..]);
    }
  }
}
