/** How a session is made, or made again, when messages were lost: by retries, probes, restarts
    and changes of endpoint; and exactly when a retry is of no use. */
module Recovery {
  import opened Wire
  import opened Commands
  import opened Protocol
  import opened Handshake
  import B = BaseStations
  import R = RoverSessions

  // ---------------------------------------------------------------- completing a handshake

  /** The base is free, or records this rover, at whatever endpoint and in whatever state. */
  predicate Open(b: B.Base, i: string) {
    b.state.INACTIVE? || b.roverId == i
  }

  /** A rover of the system, which the base can answer. */
  predicate Addressable(c: Config, w: World, i: string) {
    i in w.rovers && i in c.ends && i != c.stationId && !Unspecified(c.ends[i])
  }

  /** Base and rover are active together, at the rover's endpoint. */
  predicate Joined(c: Config, w: World, i: string) {
    && i in w.rovers && i in c.ends && w.rovers[i].state.ACTIVE?
    && w.base.state.ACTIVE? && w.base.roverId == i && w.base.rover == c.ends[i]
  }

  predicate Delivery(e: Event) {
    e.ReachBase? || e.ReachRover?
  }

  predicate OnlyDeliveries(es: seq<Event>) {
    forall i :: 0 <= i < |es| ==> Delivery(es[i])
  }

  /** The deliveries complete the session of `i`. */
  ghost predicate Completes(c: Config, w: World, i: string, es: seq<Event>) {
    Valid(c, w, es) && OnlyDeliveries(es) && Joined(c, Run(c, w, es), i)
  }

  lemma OneDelivery(c: Config, w: World, i: string, e: Event)
    requires Possible(c, w, e) && Delivery(e) && Joined(c, Step(c, w, e), i)
    ensures Completes(c, w, i, [e]) && Run(c, w, [e]) == Step(c, w, e)
  {
    assert [e][1..] == [];
  }

  lemma DeliverFirst(c: Config, w: World, i: string, e: Event, es: seq<Event>)
    requires Possible(c, w, e) && Delivery(e) && Completes(c, Step(c, w, e), i, es)
    ensures Completes(c, w, i, [e] + es) && Run(c, w, [e] + es) == Run(c, Step(c, w, e), es)
  {
    RunSnoc(c, w, e, es);
  }

  /** The base's answer to its rover arrives there. */
  lemma EstablishedCompletes(c: Config, w: World, i: string) returns (es: seq<Event>)
    requires Addressable(c, w, i) && ToRover(SESSION_ESTABLISHED, c.ends[i]) in w.net
    requires w.base.state.ACTIVE? && w.base.roverId == i && w.base.rover == c.ends[i]
    ensures Completes(c, w, i, es) && Run(c, w, es).base == w.base
  {
    var e := ReachRover(ToRover(SESSION_ESTABLISHED, c.ends[i]), i);
    OneDelivery(c, w, i, e);
    es := [e];
  }

  /** A CONFIRM under way to a base that waits for it. */
  lemma ConfirmCompletes(c: Config, w: World, i: string) returns (es: seq<Event>)
    requires Addressable(c, w, i) && ToBase(SESSION_CONFIRM, i, c.ends[i]) in w.net
    requires w.base.state.HANDSHAKE_ACCEPT? && w.base.roverId == i && w.base.rover == c.ends[i]
    ensures Completes(c, w, i, es) && Run(c, w, es).base == B.Base(B.ACTIVE, i, c.ends[i], true)
  {
    var end := c.ends[i];
    var e := ReachBase(ToBase(SESSION_CONFIRM, i, end));
    var w1 := Step(c, w, e);
    assert B.Route(w.base, SESSION_CONFIRM, i, end)
        == B.Reply(B.Base(B.ACTIVE, i, end, true), [(SESSION_ESTABLISHED, end)]);
    assert (SESSION_ESTABLISHED, end) in [(SESSION_ESTABLISHED, end)] && ToRover(SESSION_ESTABLISHED, end) in w1.net;
    var rest := EstablishedCompletes(c, w1, i);
    DeliverFirst(c, w, i, e, rest);
    es := [e] + rest;
  }

  /** An ACCEPT under way to a rover that waits for it, or probes. */
  lemma AcceptCompletes(c: Config, w: World, i: string) returns (es: seq<Event>)
    requires Addressable(c, w, i) && (w.rovers[i].state.HANDSHAKE_INIT? || w.rovers[i].state.DISCONNECTED?)
    requires ToRover(SESSION_ACCEPT, c.ends[i]) in w.net
    requires w.base.state.HANDSHAKE_ACCEPT? && w.base.roverId == i && w.base.rover == c.ends[i]
    ensures Completes(c, w, i, es) && Run(c, w, es).base == B.Base(B.ACTIVE, i, c.ends[i], true)
  {
    var end := c.ends[i];
    var e := ReachRover(ToRover(SESSION_ACCEPT, end), i);
    var w1 := Step(c, w, e);
    assert SESSION_CONFIRM in [SESSION_CONFIRM] && ToBase(SESSION_CONFIRM, i, end) in w1.net;
    var rest := ConfirmCompletes(c, w1, i);
    DeliverFirst(c, w, i, e, rest);
    es := [e] + rest;
  }

  /** What the base makes of an INIT from its rover or, if it is free, from any: the active
      rover at its endpoint is told again that the session is established; anyone else becomes
      the rover that is expected to confirm, at the endpoint it now has, and is told so. */
  lemma OpenInit(b: B.Base, i: string, from: Endpoint)
    requires B.Sane(b) && Open(b, i) && !Unspecified(from)
    ensures B.Route(b, SESSION_INIT, i, from)
         == if b.state.ACTIVE? && b.rover == from then B.Reply(b, [(SESSION_ESTABLISHED, from)])
            else B.Reply(B.Base(B.HANDSHAKE_ACCEPT, i, from, false), [(SESSION_ACCEPT, from)])
  {
  }

  /** The flag after a handshake: set, unless the session had been active all along. */
  predicate FlagAfter(b: B.Base, end: Endpoint) {
    !(b.state.ACTIVE? && b.rover == end) || b.flag
  }

  /** An INIT under way from a rover that waits for an answer, or probes. */
  lemma InitCompletes(c: Config, w: World, i: string) returns (es: seq<Event>)
    requires B.Sane(w.base) && Open(w.base, i) && Addressable(c, w, i)
    requires w.rovers[i].state.HANDSHAKE_INIT? || w.rovers[i].state.DISCONNECTED?
    requires ToBase(SESSION_INIT, i, c.ends[i]) in w.net
    ensures Completes(c, w, i, es) && Run(c, w, es).base.flag == FlagAfter(w.base, c.ends[i])
  {
    var end := c.ends[i];
    var e := ReachBase(ToBase(SESSION_INIT, i, end));
    var w1 := Step(c, w, e);
    OpenInit(w.base, i, end);
    var rest;
    if w.base.state.ACTIVE? && w.base.rover == end {
      assert (SESSION_ESTABLISHED, end) in [(SESSION_ESTABLISHED, end)] && ToRover(SESSION_ESTABLISHED, end) in w1.net;
      rest := EstablishedCompletes(c, w1, i);
    } else {
      assert (SESSION_ACCEPT, end) in [(SESSION_ACCEPT, end)] && ToRover(SESSION_ACCEPT, end) in w1.net;
      rest := AcceptCompletes(c, w1, i);
    }
    DeliverFirst(c, w, i, e, rest);
    es := [e] + rest;
  }

  // ---------------------------------------------------------------- restarts, probes, moves

  lemma {:induction false} RunStaysSane(c: Config, w: World, es: seq<Event>)
    requires B.Sane(w.base) && Valid(c, w, es)
    ensures B.Sane(Run(c, w, es).base) && Run(c, w, es).rovers.Keys == w.rovers.Keys
    decreases |es|
  {
    if es != [] {
      RunStaysSane(c, Step(c, w, es[0]), es[1..]);
    }
  }

  /** The world when everything on its way is lost and the rover then does something. */
  function Afresh(c: Config, w: World, i: string, own: R.Event): World
    requires i in w.rovers && i in c.ends
  {
    RoverMoves(c, w.(net := {}), i, own)
  }

  /** A probe brings a disconnected rover back, whatever else is lost. */
  lemma ProbeCompletes(c: Config, w: World, i: string) returns (es: seq<Event>)
    requires B.Sane(w.base) && Open(w.base, i) && Addressable(c, w, i) && w.rovers[i].state.DISCONNECTED?
    ensures var n := Afresh(c, w, i, R.ProbeTick);
            Completes(c, n, i, es) && Run(c, n, es).base.flag == FlagAfter(w.base, c.ends[i])
  {
    var n := Afresh(c, w, i, R.ProbeTick);
    assert SESSION_INIT in [SESSION_INIT] && ToBase(SESSION_INIT, i, c.ends[i]) in n.net;
    es := InitCompletes(c, n, i);
  }

  /** So does a fresh start of one that was stopped or is disconnected. */
  lemma StartCompletes(c: Config, w: World, i: string) returns (es: seq<Event>)
    requires B.Sane(w.base) && Open(w.base, i) && Addressable(c, w, i)
    requires w.rovers[i].state.INACTIVE? || w.rovers[i].state.DISCONNECTED?
    ensures var n := Afresh(c, w, i, R.Begin);
            Completes(c, n, i, es) && Run(c, n, es).base.flag == FlagAfter(w.base, c.ends[i])
  {
    var n := Afresh(c, w, i, R.Begin);
    assert SESSION_INIT in [SESSION_INIT] && ToBase(SESSION_INIT, i, c.ends[i]) in n.net;
    es := InitCompletes(c, n, i);
  }

  /** Whatever came before, a rover that is stopped and starts at another endpoint joins the
      base there, if the base is free or records that rover: the messages from the old endpoint
      may all be lost, and the flag is set again unless the base was active at the new endpoint
      already. */
  lemma MovedRoverReconnects(c: Config, w0: World, es0: seq<Event>, i: string, to: Endpoint) returns (ds: seq<Event>)
    requires Initial(c, w0) && Valid(c, w0, es0) && Open(Run(c, w0, es0).base, i)
    requires i in c.ends && i != c.stationId && !Unspecified(to)
    ensures var w, moved := Run(c, w0, es0), c.(ends := c.ends[i := to]);
            var es := [AtRover(i, R.Halt)] + ([Lose(w.net)] + ([AtRover(i, R.Begin)] + ds));
            && OnlyDeliveries(ds) && Valid(moved, w, es) && Joined(moved, Run(moved, w, es), i)
            && Run(moved, w, es).base == B.Base(B.ACTIVE, i, to, FlagAfter(w.base, to))
  {
    var w, moved := Run(c, w0, es0), c.(ends := c.ends[i := to]);
    RunStaysSane(c, w0, es0);
    var e1, e2, e3 := AtRover(i, R.Halt), Lose(w.net), AtRover(i, R.Begin);
    var w1 := Step(moved, w, e1);
    var w2 := Step(moved, w1, e2);
    assert w1.net == w.net && w2 == w1.(net := {});
    ds := StartCompletes(moved, w1, i);
    RunSnoc(moved, w2, e3, ds);
    RunSnoc(moved, w1, e2, [e3] + ds);
    RunSnoc(moved, w, e1, [e2] + ([e3] + ds));
  }

  /** What ends a session at which both are active: the rover loses the base or stops, or an
      INIT of that rover arrives from another endpoint, be it an old one. */
  predicate Parts(c: Config, i: string, e: Event)
    requires i in c.ends
  {
    || (e.AtRover? && e.id == i && (e.own.BaseLost? || e.own.Halt?))
    || (e.ReachBase? && e.toBase.ToBase? && e.toBase.command.SESSION_INIT? && e.toBase.id == i
        && e.toBase.from != c.ends[i])
  }

  lemma StaysJoinedExactly(c: Config, w: World, i: string, e: Event)
    requires Joined(c, w, i) && Possible(c, w, e)
    ensures Joined(c, Step(c, w, e), i) <==> !Parts(c, i, e)
  {
  }

  /** A rover that loses an active base, in any run, is back after its probe. */
  lemma LossIsRepaired(c: Config, w0: World, es0: seq<Event>, i: string) returns (ds: seq<Event>)
    requires Initial(c, w0) && Valid(c, w0, es0)
    requires var w := Run(c, w0, es0); Addressable(c, w, i) && w.rovers[i].state.ACTIVE?
    ensures var w := Run(c, w0, es0);
            var es := [AtRover(i, R.BaseLost)] + ([Lose(w.net)] + ([AtRover(i, R.ProbeTick)] + ds));
            && OnlyDeliveries(ds) && Valid(c, w, es) && Joined(c, Run(c, w, es), i)
            && Run(c, w, es).base == w.base
  {
    var w := Run(c, w0, es0);
    RunStaysSane(c, w0, es0);
    Agreement(c, w0, es0, i);
    var e1, e2, e3 := AtRover(i, R.BaseLost), Lose(w.net), AtRover(i, R.ProbeTick);
    var w1 := Step(c, w, e1);
    var w2 := Step(c, w1, e2);
    assert w1.net == w.net && w2 == w1.(net := {});
    ds := ProbeCompletes(c, w1, i);
    RunSnoc(c, w2, e3, ds);
    RunSnoc(c, w1, e2, [e3] + ds);
    RunSnoc(c, w, e1, [e2] + ([e3] + ds));
  }

  // ---------------------------------------------------------------- when a retry is of use

  /** A session under way at the endpoint. */
  predicate RecordedAt(b: B.Base, e: Endpoint) {
    !b.state.INACTIVE? && b.rover == e
  }

  /** A rover that was accepted is the one the base records. */
  ghost predicate AcceptIsTrue(c: Config, w: World) {
    && (forall to :: ToRover(SESSION_ACCEPT, to) in w.net ==> RecordedAt(w.base, to))
    && (forall i :: i in w.rovers && w.rovers[i].state.HANDSHAKE_ACCEPT? ==>
          i in c.ends && RecordedAt(w.base, c.ends[i]))
  }

  lemma RouteKeepsRecord(c: Config, b: B.Base, k: Command, id: string)
    requires B.Sane(b) && Owned(c, b) && id in c.ends
    ensures var r := B.Route(b, k, id, c.ends[id]);
            && (!b.state.INACTIVE? ==> RecordedAt(r.base, b.rover))
            && (forall x :: x in r.sent && x.0.SESSION_ACCEPT? ==> RecordedAt(r.base, x.1))
  {
  }

  lemma StepKeepsAccept(c: Config, w: World, e: Event)
    requires Inv(c, w) && AcceptIsTrue(c, w) && Possible(c, w, e)
    ensures AcceptIsTrue(c, Step(c, w, e))
  {
    if e.ReachBase? {
      RouteKeepsRecord(c, w.base, e.toBase.command, e.toBase.id);
    } else if e.ReachRover? && e.toRover.command.SESSION_ACCEPT? {
      assert e.toRover == ToRover(SESSION_ACCEPT, c.ends[e.receiver]);
    }
  }

  lemma {:induction false} RunKeepsAccept(c: Config, w: World, es: seq<Event>)
    requires Inv(c, w) && AcceptIsTrue(c, w) && Valid(c, w, es)
    ensures Inv(c, Run(c, w, es)) && AcceptIsTrue(c, Run(c, w, es))
    decreases |es|
  {
    if es != [] {
      StepKeepsInv(c, w, es[0]);
      StepKeepsAccept(c, w, es[0]);
      RunKeepsAccept(c, Step(c, w, es[0]), es[1..]);
    }
  }

  /** The retry is of use: a rover without an answer meets a base that is free or records it,
      or an accepted one a base that still waits for its CONFIRM. */
  predicate Useful(w: World, i: string)
    requires i in w.rovers
  {
    if w.rovers[i].state.HANDSHAKE_INIT? then Open(w.base, i) else w.base.state.HANDSHAKE_ACCEPT?
  }

  lemma UsefulRetryCompletes(c: Config, w: World, i: string) returns (es: seq<Event>)
    requires Distinct(c) && Inv(c, w) && AcceptIsTrue(c, w) && Addressable(c, w, i) && Useful(w, i)
    requires R.Handshaking(w.rovers[i]) && w.rovers[i].retries < 5
    ensures var n := Afresh(c, w, i, R.HandshakeTick);
            Completes(c, n, i, es) && Run(c, n, es).base.flag == FlagAfter(w.base, c.ends[i])
  {
    var n, end := Afresh(c, w, i, R.HandshakeTick), c.ends[i];
    if w.rovers[i].state.HANDSHAKE_INIT? {
      assert SESSION_INIT in [SESSION_INIT] && ToBase(SESSION_INIT, i, end) in n.net;
      es := InitCompletes(c, n, i);
    } else {
      assert SESSION_CONFIRM in [SESSION_CONFIRM] && ToBase(SESSION_CONFIRM, i, end) in n.net;
      es := ConfirmCompletes(c, n, i);
    }
  }

  // ---------------------------------------------------------------- when it is not

  /** The base is in session with another rover, and nothing from it is on its way here. */
  ghost predicate Refused(c: Config, w: World, i: string) {
    && i in w.rovers && i in c.ends && !w.rovers[i].state.ACTIVE?
    && !w.base.state.INACTIVE? && w.base.roverId != i
    && forall k :: ToRover(k, c.ends[i]) !in w.net
  }

  /** A base in session answers its own rover only. */
  lemma RouteIgnores(c: Config, b: B.Base, k: Command, id: string, i: string)
    requires Distinct(c) && B.Sane(b) && Owned(c, b) && !b.state.INACTIVE? && b.roverId != i
    requires id in c.ends && i in c.ends
    ensures var r := B.Route(b, k, id, c.ends[id]);
            && !r.base.state.INACTIVE? && r.base.roverId != i
            && forall x :: x in r.sent ==> x.1 != c.ends[i]
  {
  }

  lemma StepStaysRefused(c: Config, w: World, i: string, e: Event)
    requires Distinct(c) && Inv(c, w) && Refused(c, w, i) && Possible(c, w, e)
    ensures Refused(c, Step(c, w, e), i)
  {
    if e.ReachBase? {
      RouteIgnores(c, w.base, e.toBase.command, e.toBase.id, i);
    }
  }

  /** A rover refused by a base in session never becomes active, whatever happens. */
  lemma {:induction false} RefusedStays(c: Config, w: World, i: string, es: seq<Event>)
    requires Distinct(c) && Inv(c, w) && Refused(c, w, i) && Valid(c, w, es)
    ensures Refused(c, Run(c, w, es), i)
    decreases |es|
  {
    if es != [] {
      StepKeepsInv(c, w, es[0]);
      StepStaysRefused(c, w, i, es[0]);
      RefusedStays(c, Step(c, w, es[0]), i, es[1..]);
    }
  }

  /** The base is active with this rover, but the rover, which has confirmed, does not know: the
      word was lost, and no INIT of its is left to ask for it again. */
  ghost predicate Stranded(c: Config, w: World, i: string) {
    && Addressable(c, w, i) && w.rovers[i].state.HANDSHAKE_ACCEPT?
    && w.base.state.ACTIVE? && w.base.roverId == i
    && ToBase(SESSION_INIT, i, c.ends[i]) !in w.net && ToRover(SESSION_ESTABLISHED, c.ends[i]) !in w.net
  }

  /** What frees it: a stop, or an application that itself sends the command needed. */
  predicate Frees(i: string, e: Event) {
    || (e.AtRover? && e.id == i && (e.own.Halt? || e.own == R.Say(SESSION_INIT)))
    || e == BaseSays(SESSION_ESTABLISHED)
  }

  /** An active base says nothing to its rover's CONFIRM, and nothing to other rovers. */
  lemma ActiveBaseIsQuiet(c: Config, b: B.Base, k: Command, id: string)
    requires Distinct(c) && B.Sane(b) && Owned(c, b) && b.state.ACTIVE? && id in c.ends
    requires !(k.SESSION_INIT? && id == b.roverId)
    ensures var r := B.Route(b, k, id, c.ends[id]);
            r.sent == [] && r.base.state.ACTIVE? && r.base.roverId == b.roverId && r.base.rover == b.rover
  {
  }

  lemma FreedExactly(c: Config, w: World, i: string, e: Event)
    requires Distinct(c) && Inv(c, w) && Stranded(c, w, i) && Possible(c, w, e)
    ensures Stranded(c, Step(c, w, e), i) <==> !Frees(i, e)
  {
    if e.ReachBase? {
      ActiveBaseIsQuiet(c, w.base, e.toBase.command, e.toBase.id);
    } else if e == BaseSays(SESSION_ESTABLISHED) {
      var sent := B.SendCommand(w.base, SESSION_ESTABLISHED);
      assert sent == [(SESSION_ESTABLISHED, c.ends[i])] && sent[0] in sent;
    } else if e == AtRover(i, R.Say(SESSION_INIT)) {
      assert SESSION_INIT in R.Apply(w.rovers[i], e.own).sent;
    }
  }

  /** A stranded rover stays so until one of those events: retries, probes and new starts of
      its own, other rovers, and whatever else the base says change nothing. */
  lemma {:induction false} StrandedStays(c: Config, w: World, i: string, es: seq<Event>)
    requires Distinct(c) && Inv(c, w) && Stranded(c, w, i) && Valid(c, w, es)
    requires forall k :: 0 <= k < |es| ==> !Frees(i, es[k])
    ensures Stranded(c, Run(c, w, es), i)
    decreases |es|
  {
    if es != [] {
      StepKeepsInv(c, w, es[0]);
      FreedExactly(c, w, i, es[0]);
      StrandedStays(c, Step(c, w, es[0]), i, es[1..]);
    }
  }

  lemma AfreshKeepsInv(c: Config, w: World, i: string, own: R.Event)
    requires Inv(c, w) && i in w.rovers && i in c.ends && !own.Heard?
    ensures Inv(c, Afresh(c, w, i, own))
  {
    var lost := w.(net := {});
    assert Inv(c, lost);
    StepKeepsInv(c, lost, AtRover(i, own));
  }

  lemma UselessRetryFails(c: Config, w: World, i: string, es: seq<Event>)
    requires Distinct(c) && Inv(c, w) && AcceptIsTrue(c, w) && Addressable(c, w, i) && !Useful(w, i)
    requires R.Handshaking(w.rovers[i])
    ensures !Completes(c, Afresh(c, w, i, R.HandshakeTick), i, es)
  {
    var n := Afresh(c, w, i, R.HandshakeTick);
    AfreshKeepsInv(c, w, i, R.HandshakeTick);
    if Completes(c, n, i, es) {
      if w.rovers[i].state.HANDSHAKE_INIT? {
        RefusedStays(c, n, i, es);
      } else {
        StrandedStays(c, n, i, es);
      }
    }
  }

  /** In every joint run, when everything on its way is lost and a rover in either phase of its
      handshake retries: deliveries of what it and the base then send can make both active if
      and only if the retry is of use. It is not when the base is in session with another
      rover, nor when the base is active with this one, whose CONFIRM it no longer answers. */
  lemma RetryCompletesIff(c: Config, w0: World, es0: seq<Event>, i: string)
    requires Initial(c, w0) && Valid(c, w0, es0)
    requires var w := Run(c, w0, es0);
             Addressable(c, w, i) && R.Handshaking(w.rovers[i]) && w.rovers[i].retries < 5
    ensures var w := Run(c, w0, es0);
            (exists es :: Completes(c, Afresh(c, w, i, R.HandshakeTick), i, es)) <==> Useful(w, i)
  {
    RunKeepsAccept(c, w0, es0);
    var w := Run(c, w0, es0);
    if Useful(w, i) {
      var es := UsefulRetryCompletes(c, w, i);
    } else {
      forall es ensures !Completes(c, Afresh(c, w, i, R.HandshakeTick), i, es) {
        UselessRetryFails(c, w, i, es);
      }
    }
  }

  /** Such a rover exists: the handshake went well until the word that it did was lost. */
  lemma StrandedIsReached(c: Config, w: World, i: string) returns (es: seq<Event>)
    requires Initial(c, w) && Addressable(c, w, i)
    ensures Valid(c, w, es) && Stranded(c, Run(c, w, es), i)
  {
    var end := c.ends[i];
    var e1 := AtRover(i, R.Begin);
    var w1 := Step(c, w, e1);
    assert SESSION_INIT in R.Initiate(w.rovers[i]).sent && ToBase(SESSION_INIT, i, end) in w1.net;
    var e2 := ReachBase(ToBase(SESSION_INIT, i, end));
    var w2 := Step(c, w1, e2);
    OpenInit(w1.base, i, end);
    assert (SESSION_ACCEPT, end) in [(SESSION_ACCEPT, end)] && ToRover(SESSION_ACCEPT, end) in w2.net;
    var e3 := ReachRover(ToRover(SESSION_ACCEPT, end), i);
    var w3 := Step(c, w2, e3);
    assert SESSION_CONFIRM in [SESSION_CONFIRM] && ToBase(SESSION_CONFIRM, i, end) in w3.net;
    var e4 := ReachBase(ToBase(SESSION_CONFIRM, i, end));
    var w4 := Step(c, w3, e4);
    var e5 := Lose(w4.net);
    RunSnoc(c, w4, e5, []);
    RunSnoc(c, w3, e4, [e5] + []);
    RunSnoc(c, w2, e3, [e4] + ([e5] + []));
    RunSnoc(c, w1, e2, [e3] + ([e4] + ([e5] + [])));
    RunSnoc(c, w, e1, [e2] + ([e3] + ([e4] + ([e5] + []))));
    es := [e1] + ([e2] + ([e3] + ([e4] + ([e5] + []))));
  }
}
