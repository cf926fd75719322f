/** The rover's session state machine (src/rover/rover.cpp), apart from its queue and its
    protocol layer. */
module RoverSessions {
  import opened Commands

  datatype SessionState = INACTIVE | HANDSHAKE_INIT | HANDSHAKE_ACCEPT | ACTIVE | DISCONNECTED

  const MAX_HANDSHAKE_RETRIES := 5

  datatype Session = Session(state: SessionState, retries: nat)

  /** The session after a handler, and the commands it sent to the base. */
  datatype Turn = Turn(session: Session, sent: seq<Command>)

  predicate Handshaking(s: Session) {
    s.state.HANDSHAKE_INIT? || s.state.HANDSHAKE_ACCEPT?
  }

  /** While disconnected only SESSION_INIT is sent. */
  function SendCommand(s: Session, c: Command): seq<Command> {
    if s.state.DISCONNECTED? && !c.SESSION_INIT? then [] else [c]
  }

  function Initiate(s: Session): Turn {
    if !s.state.INACTIVE? && !s.state.DISCONNECTED? then Turn(s, [])
    else Turn(Session(HANDSHAKE_INIT, 0), [SESSION_INIT])
  }

  /** When the retries run out, the disconnect that follows is ignored: it acts only on an
      active session. */
  function HandshakeTimer(s: Session): Turn {
    if !Handshaking(s) || s.retries >= MAX_HANDSHAKE_RETRIES then Turn(s, [])
    else Turn(s.(retries := s.retries + 1), [if s.state.HANDSHAKE_INIT? then SESSION_INIT else SESSION_CONFIRM])
  }

  function Accept(s: Session): Turn {
    if !s.state.HANDSHAKE_INIT? && !s.state.DISCONNECTED? then Turn(s, [])
    else Turn(s.(state := HANDSHAKE_ACCEPT), [SESSION_CONFIRM])
  }

  function Established(s: Session): Turn {
    if s.state.ACTIVE? then Turn(s, []) else Turn(Session(ACTIVE, 0), [])
  }

  function Disconnect(s: Session): Turn {
    if !s.state.ACTIVE? then Turn(s, []) else Turn(s.(state := DISCONNECTED), [])
  }

  function ProbeTimer(s: Session): Turn {
    if !s.state.DISCONNECTED? then Turn(s, []) else Turn(s, [SESSION_INIT])
  }

  /** Stopping keeps the retry counter; the next start clears it. */
  function Stopped(s: Session): Turn {
    Turn(s.(state := INACTIVE), [])
  }

  /** A command from the base. */
  function Hear(s: Session, c: Command): Turn {
    if c.SESSION_ACCEPT? then Accept(s)
    else if c.SESSION_ESTABLISHED? then Established(s)
    else Turn(s, [])
  }

  datatype Event =
    | Begin
    | HandshakeTick
    | ProbeTick
    | BaseLost
    | Heard(command: Command)
    | Say(command: Command)
    | Halt

  function Apply(s: Session, e: Event): Turn {
    match e
    case Begin => Initiate(s)
    case HandshakeTick => HandshakeTimer(s)
    case ProbeTick => ProbeTimer(s)
    case BaseLost => Disconnect(s)
    case Heard(c) => Hear(s, c)
    case Say(c) => Turn(s, SendCommand(s, c))
    case Halt => Stopped(s)
  }

  function Run(s: Session, es: seq<Event>): Turn
    decreases |es|
  {
    if es == [] then Turn(s, [])
    else
      var first := Apply(s, es[0]);
      var rest := Run(first.session, es[1..]);
      Turn(rest.session, first.sent + rest.sent)
  }

  /** The commands that the handshake timer sends in a run. */
  function Resends(s: Session, es: seq<Event>): nat
    decreases |es|
  {
    if es == [] then 0
    else
      var first := Apply(s, es[0]);
      (if es[0].HandshakeTick? then |first.sent| else 0) + Resends(first.session, es[1..])
  }

  /** Events within one handshake: none begins another or completes this one. */
  predicate Within(es: seq<Event>) {
    forall i :: 0 <= i < |es| ==> !es[i].Begin? && es[i] != Heard(SESSION_ESTABLISHED)
  }

  /** Within one handshake the counter counts exactly the commands sent again, in both of its
      phases together at most five. */
  lemma {:induction false} RetriesBounded(s: Session, es: seq<Event>)
    requires s.retries <= MAX_HANDSHAKE_RETRIES && Within(es)
    ensures Resends(s, es) == Run(s, es).session.retries - s.retries
    ensures Resends(s, es) <= 5 - s.retries
    decreases |es|
  {
    if es != [] {
      assert !es[0].Begin? && es[0] != Heard(SESSION_ESTABLISHED);
      RetriesBounded(Apply(s, es[0]).session, es[1..]);
    }
  }

  /** A handshake whose retries are spent. */
  predicate Exhausted(s: Session) {
    Handshaking(s) && s.retries >= MAX_HANDSHAKE_RETRIES
  }

  /** What moves it: the command it waits for, SESSION_ESTABLISHED in any case, or a stop. */
  predicate Moves(s: Session, e: Event) {
    e == Heard(SESSION_ESTABLISHED) || e.Halt? || (s.state.HANDSHAKE_INIT? && e == Heard(SESSION_ACCEPT))
  }

  lemma ExhaustedMovesExactly(s: Session, e: Event)
    requires Exhausted(s)
    ensures Apply(s, e).session == s <==> !Moves(s, e)
    ensures !Moves(s, e) && !e.Say? ==> Apply(s, e).sent == []
  {
  }

  /** A rover that has spent its retries in either phase stays where it is, and sends nothing
      of its own, until an event that moves it: neither timer, nor a new start, nor the
      disconnect that follows the last retry, does anything. */
  lemma {:induction false} ExhaustedWaits(s: Session, es: seq<Event>)
    requires Exhausted(s) && forall i :: 0 <= i < |es| ==> !Moves(s, es[i]) && !es[i].Say?
    ensures Run(s, es) == Turn(s, [])
    decreases |es|
  {
    if es != [] {
      ExhaustedMovesExactly(s, es[0]);
      ExhaustedWaits(s, es[1..]);
    }
  }

  function Ticks(n: nat): seq<Event> {
    seq(n, _ => HandshakeTick)
  }

  lemma {:induction false} TicksCount(s: Session, n: nat)
    requires Handshaking(s) && s.retries + n <= MAX_HANDSHAKE_RETRIES
    ensures Run(s, Ticks(n)).session == s.(retries := s.retries + n)
    decreases n
  {
    if n > 0 {
      assert Ticks(n)[1..] == Ticks(n - 1);
      TicksCount(s.(retries := s.retries + 1), n - 1);
    }
  }

  /** Such rovers exist in both phases: five ticks after the start, without and with an
      accepting base. */
  lemma ExhaustionIsReached(s: Session)
    requires s.state.INACTIVE? || s.state.DISCONNECTED?
    ensures Run(s, [Begin] + Ticks(5)).session == Session(HANDSHAKE_INIT, 5)
    ensures Run(s, [Begin] + ([Heard(SESSION_ACCEPT)] + Ticks(5))).session == Session(HANDSHAKE_ACCEPT, 5)
  {
    var init, accepted := Session(HANDSHAKE_INIT, 0), Session(HANDSHAKE_ACCEPT, 0);
    var later := [Heard(SESSION_ACCEPT)] + Ticks(5);
    TicksCount(init, 5);
    TicksCount(accepted, 5);
    assert later[1..] == Ticks(5) && ([Begin] + later)[1..] == later && ([Begin] + Ticks(5))[1..] == Ticks(5);
    assert Run(init, later).session == Session(HANDSHAKE_ACCEPT, 5);
  }

  /** Only SESSION_ESTABLISHED makes a session active, from whatever state, and only the
      loss of the base or a stop ends an active one; only the loss of an active base makes it
      disconnected, until a start, an answer of the base or a stop. */
  lemma ActiveExactly(s: Session, e: Event)
    ensures Apply(s, e).session.state.ACTIVE? <==>
            e == Heard(SESSION_ESTABLISHED) || (s.state.ACTIVE? && !e.BaseLost? && !e.Halt?)
    ensures Apply(s, e).session.state.DISCONNECTED? <==>
            || (s.state.ACTIVE? && e.BaseLost?)
            || (s.state.DISCONNECTED? && !e.Begin? && !e.Halt?
                && e != Heard(SESSION_ACCEPT) && e != Heard(SESSION_ESTABLISHED))
  {
  }

  /** The states from which a handshake begins. */
  predicate Idle(s: Session) {
    s.state.INACTIVE? || s.state.DISCONNECTED?
  }

  /** The states in which the base's ACCEPT counts. */
  predicate Awaiting(s: Session) {
    s.state.HANDSHAKE_INIT? || s.state.DISCONNECTED?
  }

  /** Which event sends which command: SESSION_INIT by a start of an idle rover, a probe of a
      disconnected one, and a retry in the first phase; SESSION_CONFIRM by the base's ACCEPT
      where it counts, and a retry in the second phase; any other only by the application; and
      the application's own commands in every state, except that a disconnected rover sends
      SESSION_INIT alone. No event sends more than one. */
  lemma SendsExactly(s: Session, e: Event)
    ensures var retry := e.HandshakeTick? && s.retries < 5;
            Apply(s, e).sent ==
            if e.Say? then if s.state.DISCONNECTED? && e.command != SESSION_INIT then [] else [e.command]
            else if (e.Begin? && Idle(s)) || (e.ProbeTick? && s.state.DISCONNECTED?)
                    || (retry && s.state.HANDSHAKE_INIT?) then [SESSION_INIT]
            else if (e == Heard(SESSION_ACCEPT) && Awaiting(s)) || (retry && s.state.HANDSHAKE_ACCEPT?)
            then [SESSION_CONFIRM]
            else []
  {
  }

  /** The two phases of a handshake are entered and left exactly so. */
  lemma PhasesExactly(s: Session, e: Event)
    ensures Apply(s, e).session.state.HANDSHAKE_INIT? <==>
            || (e.Begin? && Idle(s))
            || (s.state.HANDSHAKE_INIT? && !e.Halt? && e != Heard(SESSION_ACCEPT) && e != Heard(SESSION_ESTABLISHED))
    ensures Apply(s, e).session.state.HANDSHAKE_ACCEPT? <==>
            || (e == Heard(SESSION_ACCEPT) && Awaiting(s))
            || (s.state.HANDSHAKE_ACCEPT? && !e.Halt? && e != Heard(SESSION_ESTABLISHED))
  {
  }
}
