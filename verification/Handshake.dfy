/** Joint runs of one base and any number of rovers over a network that keeps every message
    until it is lost, so that each may be lost, duplicated or delayed at will. */
module Handshake {
  import opened Wire
  import opened Commands
  import opened Protocol
  import B = BaseStations
  import R = RoverSessions

  /** A command to the base with its sender's id and endpoint, or to whoever listens at `to`. */
  datatype Message =
    | ToBase(command: Command, id: string, from: Endpoint)
    | ToRover(command: Command, to: Endpoint)

  /** The base's id, and the one endpoint each rover uses. */
  datatype Config = Config(stationId: string, ends: map<string, Endpoint>)

  /** Different rovers have different endpoints. */
  ghost predicate Distinct(c: Config) {
    forall i, j :: i in c.ends && j in c.ends && c.ends[i] == c.ends[j] ==> i == j
  }

  datatype World = World(base: B.Base, rovers: map<string, R.Session>, net: set<Message>)

  datatype Event =
    /** A rover's own timers and application commands, and the loss of the base. */
    | AtRover(id: string, own: R.Event)
    /** The base's application sends a command. */
    | BaseSays(command: Command)
    /** A message sent at some time reaches the base, or the rover at its endpoint. */
    | ReachBase(toBase: Message)
    | ReachRover(toRover: Message, receiver: string)
    /** Messages on their way vanish. */
    | Lose(lost: set<Message>)

  predicate Possible(c: Config, w: World, e: Event) {
    match e
    case AtRover(id, own) => id in w.rovers && id in c.ends && !own.Heard?
    case BaseSays(_) => true
    case ReachBase(m) => m in w.net && m.ToBase?
    case ReachRover(m, id) => m in w.net && m.ToRover? && id in w.rovers && id in c.ends && c.ends[id] == m.to
    case Lose(_) => true
  }

  function FromBase(sent: seq<(Command, Endpoint)>): set<Message> {
    set x | x in sent :: ToRover(x.0, x.1)
  }

  function FromRover(sent: seq<Command>, id: string, from: Endpoint): set<Message> {
    set x | x in sent :: ToBase(x, id, from)
  }

  function BaseMoves(w: World, r: B.Reply): World {
    w.(base := r.base, net := w.net + FromBase(r.sent))
  }

  function RoverMoves(c: Config, w: World, id: string, e: R.Event): World
    requires id in w.rovers && id in c.ends
  {
    var t := R.Apply(w.rovers[id], e);
    w.(rovers := w.rovers[id := t.session], net := w.net + FromRover(t.sent, id, c.ends[id]))
  }

  /** A rover drops messages that bear its own id. */
  function Step(c: Config, w: World, e: Event): World
    requires Possible(c, w, e)
  {
    match e
    case AtRover(id, own) => RoverMoves(c, w, id, own)
    case BaseSays(k) => BaseMoves(w, B.Reply(w.base, B.SendCommand(w.base, k)))
    case ReachBase(m) => BaseMoves(w, B.Route(w.base, m.command, m.id, m.from))
    case ReachRover(m, id) => if id == c.stationId then w else RoverMoves(c, w, id, R.Heard(m.command))
    case Lose(lost) => w.(net := w.net - lost)
  }

  predicate Valid(c: Config, w: World, es: seq<Event>)
    decreases |es|
  {
    es == [] || (Possible(c, w, es[0]) && Valid(c, Step(c, w, es[0]), es[1..]))
  }

  function Run(c: Config, w: World, es: seq<Event>): World
    requires Valid(c, w, es)
    decreases |es|
  {
    if es == [] then w else Run(c, Step(c, w, es[0]), es[1..])
  }

  ghost predicate Initial(c: Config, w: World) {
    && Distinct(c) && w.rovers.Keys == c.ends.Keys && w.net == {} && B.Fresh(w.base)
    && forall i :: i in w.rovers ==> w.rovers[i] == R.Session(R.INACTIVE, 0)
  }

  // ---------------------------------------------------------------- the invariant

  /** Messages bear the id and the endpoint of the rover that sent them. */
  ghost predicate Honest(c: Config, w: World) {
    forall m :: m in w.net && m.ToBase? ==> m.id in c.ends && m.from == c.ends[m.id]
  }

  /** A session that is under way belongs to a rover and its endpoint. */
  predicate Owned(c: Config, b: B.Base) {
    !b.state.INACTIVE? ==> b.roverId in c.ends && b.rover == c.ends[b.roverId]
  }

  predicate ActiveAt(b: B.Base, e: Endpoint) {
    b.state.ACTIVE? && b.rover == e
  }

  /** Word that a session is established went only to the endpoint of the active session. */
  ghost predicate WordIsTrue(w: World) {
    forall to :: ToRover(SESSION_ESTABLISHED, to) in w.net ==> ActiveAt(w.base, to)
  }

  ghost predicate RoversAgree(c: Config, w: World) {
    forall i :: i in w.rovers && w.rovers[i].state.ACTIVE? ==> i in c.ends && ActiveAt(w.base, c.ends[i])
  }

  ghost predicate Inv(c: Config, w: World) {
    B.Sane(w.base) && Honest(c, w) && Owned(c, w.base) && WordIsTrue(w) && RoversAgree(c, w)
  }

  /** What the base does for any message from an honest rover: an active session stays, and
      SESSION_ESTABLISHED is sent only into one. */
  lemma RouteKeeps(c: Config, b: B.Base, k: Command, id: string)
    requires B.Sane(b) && Owned(c, b) && id in c.ends
    ensures var r := B.Route(b, k, id, c.ends[id]);
            && B.Sane(r.base) && Owned(c, r.base)
            && (b.state.ACTIVE? ==> r.base.state.ACTIVE? && r.base.rover == b.rover)
            && forall x :: x in r.sent && x.0.SESSION_ESTABLISHED? ==> ActiveAt(r.base, x.1)
  {
  }

  lemma BaseMoveKeeps(c: Config, w: World, r: B.Reply)
    requires Inv(c, w) && B.Sane(r.base) && Owned(c, r.base)
    requires w.base.state.ACTIVE? ==> r.base.state.ACTIVE? && r.base.rover == w.base.rover
    requires forall x :: x in r.sent && x.0.SESSION_ESTABLISHED? ==> ActiveAt(r.base, x.1)
    ensures Inv(c, BaseMoves(w, r))
  {
  }

  lemma RoverMoveKeeps(c: Config, w: World, id: string, e: R.Event)
    requires Inv(c, w) && id in w.rovers && id in c.ends
    requires e == R.Heard(SESSION_ESTABLISHED) ==> ActiveAt(w.base, c.ends[id])
    ensures Inv(c, RoverMoves(c, w, id, e))
  {
  }

  lemma StepKeepsInv(c: Config, w: World, e: Event)
    requires Inv(c, w) && Possible(c, w, e)
    ensures Inv(c, Step(c, w, e))
  {
    match e
    case AtRover(id, own) => RoverMoveKeeps(c, w, id, own);
    case BaseSays(k) => BaseMoveKeeps(c, w, B.Reply(w.base, B.SendCommand(w.base, k)));
    case ReachBase(m) =>
      RouteKeeps(c, w.base, m.command, m.id);
      BaseMoveKeeps(c, w, B.Route(w.base, m.command, m.id, m.from));
    case ReachRover(m, id) =>
      if id != c.stationId {
        if m.command.SESSION_ESTABLISHED? {
          assert m == ToRover(SESSION_ESTABLISHED, c.ends[id]);
        }
        RoverMoveKeeps(c, w, id, R.Heard(m.command));
      }
    case Lose(_) =>
  }

  lemma {:induction false} RunKeepsInv(c: Config, w: World, es: seq<Event>)
    requires Inv(c, w) && Valid(c, w, es)
    ensures Inv(c, Run(c, w, es))
    decreases |es|
  {
    if es != [] {
      StepKeepsInv(c, w, es[0]);
      RunKeepsInv(c, Step(c, w, es[0]), es[1..]);
    }
  }

  // ---------------------------------------------------------------- the theorems

  /** In every joint run, a rover that is active has the base active with that rover's id and
      endpoint; so at most one rover is ever active. */
  lemma Agreement(c: Config, w: World, es: seq<Event>, i: string)
    requires Initial(c, w) && Valid(c, w, es)
    requires i in Run(c, w, es).rovers && Run(c, w, es).rovers[i].state.ACTIVE?
    ensures var r := Run(c, w, es);
            && r.base.state.ACTIVE? && r.base.roverId == i && i in c.ends && r.base.rover == c.ends[i]
            && forall j :: j in r.rovers && r.rovers[j].state.ACTIVE? ==> j == i
  {
    RunKeepsInv(c, w, es);
    var r := Run(c, w, es);
    assert ActiveAt(r.base, c.ends[i]) && Owned(c, r.base);
    forall j | j in r.rovers && r.rovers[j].state.ACTIVE? ensures j == i {
      assert ActiveAt(r.base, c.ends[j]);
    }
  }

  lemma RunSnoc(c: Config, w: World, e: Event, es: seq<Event>)
    requires Possible(c, w, e) && Valid(c, Step(c, w, e), es)
    ensures Valid(c, w, [e] + es) && Run(c, w, [e] + es) == Run(c, Step(c, w, e), es)
  {
  }

  /** Every rover can get there: with nothing lost, four messages make it and the base
      active. */
  lemma HandshakeCompletes(c: Config, w: World, i: string) returns (es: seq<Event>)
    requires Initial(c, w) && i in c.ends && i != c.stationId && !Unspecified(c.ends[i])
    ensures Valid(c, w, es) && |es| == 5
    ensures var r := Run(c, w, es);
            i in r.rovers && r.rovers[i].state.ACTIVE? && r.base.state.ACTIVE? && r.base.flag
  {
    var end := c.ends[i];
    var e1 := AtRover(i, R.Begin);
    var w1 := Step(c, w, e1);
    assert R.Apply(w.rovers[i], R.Begin) == R.Turn(R.Session(R.HANDSHAKE_INIT, 0), [SESSION_INIT]);
    assert SESSION_INIT in [SESSION_INIT] && ToBase(SESSION_INIT, i, end) in w1.net;
    var e2 := ReachBase(ToBase(SESSION_INIT, i, end));
    var w2 := Step(c, w1, e2);
    assert B.Route(w1.base, SESSION_INIT, i, end)
        == B.Reply(B.Base(B.HANDSHAKE_ACCEPT, i, end, false), [(SESSION_ACCEPT, end)]);
    assert (SESSION_ACCEPT, end) in [(SESSION_ACCEPT, end)] && ToRover(SESSION_ACCEPT, end) in w2.net;
    var e3 := ReachRover(ToRover(SESSION_ACCEPT, end), i);
    var w3 := Step(c, w2, e3);
    assert SESSION_CONFIRM in [SESSION_CONFIRM] && ToBase(SESSION_CONFIRM, i, end) in w3.net;
    var e4 := ReachBase(ToBase(SESSION_CONFIRM, i, end));
    var w4 := Step(c, w3, e4);
    assert B.Route(w3.base, SESSION_CONFIRM, i, end)
        == B.Reply(B.Base(B.ACTIVE, i, end, true), [(SESSION_ESTABLISHED, end)]);
    assert (SESSION_ESTABLISHED, end) in [(SESSION_ESTABLISHED, end)] && ToRover(SESSION_ESTABLISHED, end) in w4.net;
    var e5 := ReachRover(ToRover(SESSION_ESTABLISHED, end), i);
    RunSnoc(c, w4, e5, []);
    RunSnoc(c, w3, e4, [e5] + []);
    RunSnoc(c, w2, e3, [e4] + ([e5] + []));
    RunSnoc(c, w1, e2, [e3] + ([e4] + ([e5] + [])));
    RunSnoc(c, w, e1, [e2] + ([e3] + ([e4] + ([e5] + []))));
    es := [e1] + ([e2] + ([e3] + ([e4] + ([e5] + []))));
  }
}
