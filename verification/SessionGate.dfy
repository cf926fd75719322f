/** What passes between the base's application and the rovers: over every run, exactly the
    messages of the rover whose CONFIRM made the session active go up, and all that the
    application says in such a session goes down to that rover. */
module SessionGate {
  import opened Wire
  import opened Commands
  import opened Protocol
  import opened BaseStations
  import H = Handshake

  datatype Happening =
    | At(event: Event)
    /** The application sends a command. */
    | Say(command: Command)

  /** A message that reached the application. */
  datatype Up = Up(command: Command, id: string, from: Endpoint)

  /** The base; who made its session active, by the CONFIRM that did; all the messages that
      reached the application, each with whom the session then belonged to; and all that the
      application said, each with what was sent for it. */
  datatype Gate = Gate(base: Base, owner: Option<(string, Endpoint)>,
                       ups: seq<(Up, Option<(string, Endpoint)>)>,
                       downs: seq<(Command, Option<(string, Endpoint)>, seq<(Command, Endpoint)>)>)

  /** The owner after an event: one who confirms when the session becomes active, no one when
      it ends, and unchanged otherwise. */
  function Owner(g: Gate, e: Event): Option<(string, Endpoint)> {
    if !Apply(g.base, e).state.ACTIVE? then None
    else if g.base.state.ACTIVE? then g.owner
    else if e.Hear? && e.command.SESSION_CONFIRM? then Some((e.id, e.from))
    else None
  }

  function Step(g: Gate, h: Happening): Gate {
    match h
    case At(e) =>
      Gate(Apply(g.base, e), Owner(g, e),
           g.ups + (if e.Hear? && PassesUp(g.base, e.command, e.id, e.from)
                    then [(Up(e.command, e.id, e.from), g.owner)] else []),
           g.downs)
    case Say(c) => g.(downs := g.downs + [(c, g.owner, SendCommand(g.base, c))])
  }

  function Run(g: Gate, hs: seq<Happening>): Gate
    decreases |hs|
  {
    if hs == [] then g else Run(Step(g, hs[0]), hs[1..])
  }

  predicate Opened(g: Gate) {
    Fresh(g.base) && g.owner == None && g.ups == [] && g.downs == []
  }

  // ---------------------------------------------------------------- the invariant

  /** The session belongs to the owner. */
  predicate OwnerIsTrue(g: Gate) {
    g.owner == if g.base.state.ACTIVE? then Some((g.base.roverId, g.base.rover)) else None
  }

  /** What went up came from the owner of the time, and is no command of the session. */
  ghost predicate UpsAreOwned(ups: seq<(Up, Option<(string, Endpoint)>)>) {
    forall i :: 0 <= i < |ups| ==>
      && ups[i].1 == Some((ups[i].0.id, ups[i].0.from))
      && !ups[i].0.command.SESSION_INIT? && !ups[i].0.command.SESSION_CONFIRM?
  }

  /** What was said in a session went to its owner alone; otherwise nothing was sent but an
      ACCEPT. */
  ghost predicate DownsAreOwned(downs: seq<(Command, Option<(string, Endpoint)>, seq<(Command, Endpoint)>)>) {
    forall i :: 0 <= i < |downs| ==>
      match downs[i].1
      case Some(owner) => downs[i].2 == if Unspecified(owner.1) then [] else [(downs[i].0, owner.1)]
      case None => downs[i].2 != [] ==> downs[i].0.SESSION_ACCEPT?
  }

  ghost predicate Guarded(g: Gate) {
    Sane(g.base) && OwnerIsTrue(g) && UpsAreOwned(g.ups) && DownsAreOwned(g.downs)
  }

  lemma StepStaysGuarded(g: Gate, h: Happening)
    requires Guarded(g)
    ensures Guarded(Step(g, h))
  {
  }

  lemma {:induction false} RunStaysGuarded(g: Gate, hs: seq<Happening>)
    requires Guarded(g)
    ensures Guarded(Run(g, hs))
    decreases |hs|
  {
    if hs != [] {
      StepStaysGuarded(g, hs[0]);
      RunStaysGuarded(Step(g, hs[0]), hs[1..]);
    }
  }

  // ---------------------------------------------------------------- the theorems

  /** In every run: there is an owner exactly while the session is active; every message that
      ever reached the application came from the id and endpoint whose CONFIRM had made the
      session active; and the next message reaches it if and only if it is no command of the
      session and comes from that id and endpoint. */
  lemma GateIsExact(g: Gate, hs: seq<Happening>, c: Command, id: string, from: Endpoint)
    requires Opened(g)
    ensures var r := Run(g, hs);
            && (r.owner.Some? <==> r.base.state.ACTIVE?)
            && (forall i :: 0 <= i < |r.ups| ==> r.ups[i].1 == Some((r.ups[i].0.id, r.ups[i].0.from)))
            && Step(r, At(Hear(c, id, from))).ups
               == r.ups + (if !c.SESSION_INIT? && !c.SESSION_CONFIRM? && r.owner == Some((id, from))
                           then [(Up(c, id, from), r.owner)] else [])
  {
    RunStaysGuarded(g, hs);
  }

  /** In every run: whatever the application says in an active session is sent, once, to the
      endpoint whose CONFIRM made it active, unless that is unspecified; in any other state
      nothing is sent but SESSION_ACCEPT, that while a CONFIRM is awaited. */
  lemma SaidIsSent(g: Gate, hs: seq<Happening>, c: Command)
    requires Opened(g)
    ensures var r := Run(g, hs);
            SendCommand(r.base, c) ==
            match r.owner
            case Some(owner) => if Unspecified(owner.1) then [] else [(c, owner.1)]
            case None =>
              if r.base.state.HANDSHAKE_ACCEPT? && c.SESSION_ACCEPT? && !Unspecified(r.base.rover)
              then [(c, r.base.rover)] else []
    ensures DownsAreOwned(Run(g, hs).downs)
  {
    RunStaysGuarded(g, hs);
  }

  /** In every joint run, while rover `i` is active: a message on its way to the base reaches
      the application if and only if it is no command of the session and was sent by `i`; and
      whatever the base's application says is put on its way to `i`, and to no one else. */
  lemma ActiveRoverIsHeard(c: H.Config, w: H.World, es: seq<H.Event>, i: string, m: H.Message, k: Command)
    requires H.Initial(c, w) && H.Valid(c, w, es)
    requires var r := H.Run(c, w, es);
             i in r.rovers && r.rovers[i].state.ACTIVE? && m in r.net && m.ToBase? && i in c.ends
    ensures var r := H.Run(c, w, es);
            PassesUp(r.base, m.command, m.id, m.from) <==>
            !m.command.SESSION_INIT? && !m.command.SESSION_CONFIRM? && m.id == i
    ensures var r := H.Run(c, w, es);
            H.FromBase(SendCommand(r.base, k)) == if Unspecified(c.ends[i]) then {} else {H.ToRover(k, c.ends[i])}
  {
    H.Agreement(c, w, es, i);
    H.RunKeepsInv(c, w, es);
  }
}
