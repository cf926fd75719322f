/** What a rover posts when it loses the base: over every run, one sequence reset and one probe
    for each loss, and what they do when they run. */
module PostedSteps {
  import opened Codec
  import opened Protocol
  import opened Commands
  import opened Rovers
  import opened StoredQueue
  import S = RoverSessions
  import R = RoverEvents

  /** The rover, how often it lost the base, and how many posted resets and probes have run. */
  datatype Book = Book(rover: Rover, losses: nat, resets: nat, probes: nat)

  function Loss(r: Rover, n: Rover): nat {
    if r.session.state.ACTIVE? && n.session.state.DISCONNECTED? then 1 else 0
  }

  function Enter(b: Book, own: string, t: Timed): Book {
    var n := Apply(b.rover, own, t).rover;
    Book(n, b.losses + Loss(b.rover, n),
         b.resets + (if t.event.Reset? && b.resets < b.losses then 1 else 0),
         b.probes + (if t.event.Probe? && b.probes < b.losses then 1 else 0))
  }

  function EnterAll(b: Book, own: string, ts: seq<Timed>): Book
    decreases |ts|
  {
    if ts == [] then b else EnterAll(Enter(b, own, ts[0]), own, ts[1..])
  }

  predicate New(b: Book) {
    && R.Started(b.rover.proto) && b.rover.session.state.INACTIVE? && b.rover.resets == 0 && b.rover.probes == 0
    && b.losses == 0 && b.resets == 0 && b.probes == 0
  }

  /** What is posted is what was not yet run. */
  predicate Balanced(b: Book) {
    && R.Started(b.rover.proto) && b.resets + b.rover.resets == b.losses && b.probes + b.rover.probes == b.losses
    && (b.rover.session.state.DISCONNECTED? ==> b.losses > 0)
  }

  /** Reporting and sending post nothing. */
  lemma ReportPostsNothing(r: Rover, m: Stored, x: Context)
    ensures var n := Report(r, m, x).rover;
            n.resets == r.resets && n.probes == r.probes && n.session == r.session
  {
  }

  lemma EstablishPostsNothing(r: Rover, status: Stored, telemetry: Stored, x: Context)
    ensures var n := Establish(r, status, telemetry, x).rover;
            n.resets == r.resets && n.probes == r.probes && n.session.state.ACTIVE?
  {
  }

  lemma HearPostsNothing(r: Rover, own: string, t: Timed)
    requires t.event.Hear?
    ensures var n := Apply(r, own, t).rover;
            n.resets == r.resets && n.probes == r.probes
            && (n.session.state.DISCONNECTED? ==> r.session.state.DISCONNECTED?)
  {
    EstablishPostsNothing(r, t.event.status, t.event.telemetry, t.x);
  }

  lemma MessagePostsNothing(r: Rover, own: string, t: Timed)
    requires t.event.Timer? || t.event.Message? || t.event.Layer?
    ensures var n := Apply(r, own, t).rover;
            n.resets == r.resets && n.probes == r.probes && n.session == r.session
  {
    if t.event.Timer? {
      ReportPostsNothing(r, t.event.report, t.x);
    } else if t.event.Message? {
      ReportPostsNothing(r, t.event.message, t.x);
    }
  }

  lemma SessionPostsNothing(r: Rover, own: string, t: Timed)
    requires t.event.Session? && Allowed(t.event)
    ensures var n := Apply(r, own, t).rover;
            n.resets == r.resets && n.probes == r.probes
            && (n.session.state.DISCONNECTED? ==> r.session.state.DISCONNECTED?)
  {
    S.ActiveExactly(r.session, t.event.own);
  }

  lemma EnterStaysBalanced(b: Book, own: string, t: Timed)
    requires Balanced(b) && Allowed(t.event)
    ensures Balanced(Enter(b, own, t))
  {
    EventHandsOver(b.rover, own, t);
    if t.event.Hear? {
      HearPostsNothing(b.rover, own, t);
    } else if t.event.Timer? || t.event.Message? || t.event.Layer? {
      MessagePostsNothing(b.rover, own, t);
    } else if t.event.Session? {
      SessionPostsNothing(b.rover, own, t);
    }
  }

  lemma {:induction false} AllStayBalanced(b: Book, own: string, ts: seq<Timed>)
    requires Balanced(b) && AllAllowed(ts)
    ensures Balanced(EnterAll(b, own, ts))
    decreases |ts|
  {
    if ts != [] {
      assert Allowed(ts[0].event);
      EnterStaysBalanced(b, own, ts[0]);
      AllStayBalanced(Enter(b, own, ts[0]), own, ts[1..]);
    }
  }

  /** In every run without a stop: as many probes and resets have run as the base was lost, up
      to those still posted, and only a loss disconnects. A report that the base is out of
      reach loses an active base, and posts one more of each. */
  lemma LossesArePosted(b: Book, own: string, ts: seq<Timed>, x: Context)
    requires New(b) && AllAllowed(ts)
    ensures var r := EnterAll(b, own, ts);
            && r.rover.resets == r.losses - r.resets && r.rover.probes == r.losses - r.probes
            && (r.rover.session.state.DISCONNECTED? ==> r.losses > 0)
    ensures var r := EnterAll(b, own, ts);
            r.rover.session.state.ACTIVE? ==>
              var n := Enter(r, own, At(x, Timeout(r.rover.proto.base)));
              && n.rover.session.state.DISCONNECTED? && n.losses == r.losses + 1
              && n.rover.resets > r.rover.resets && n.rover.probes > r.rover.probes
  {
    AllStayBalanced(b, own, ts);
  }

  /** A posted probe asks the base for a new session if the rover is still disconnected. */
  lemma ProbeAnswers(r: Rover, own: string, x: Context)
    requires R.Started(r.proto)
    ensures var n := Apply(r, own, At(x, Probe));
            if r.probes > 0 && r.session.state.DISCONNECTED?
            then n.commands == [SESSION_INIT]
                 && n.effects == [Send(NewPacket(CMD, HIGH, r.proto.current, x.ts, x.text), r.proto.base)]
            else n.commands == [] && n.effects == []
  {
    HandOne(r.proto, CommandText(r, x), x);
  }

  /** A posted reset restarts the numbers and forgets all that was tracked. */
  lemma ResetAnswers(r: Rover, own: string, x: Context)
    ensures var p, q := r.proto, Apply(r, own, At(x, Reset)).rover.proto;
            if r.resets > 0
            then q.current == 0 && q.rel == p.rel.(sent := map[], received := map[], naks := map[], acked := map[])
            else q == p
  {
  }

  /** In every run without a stop: a probe for a loss not yet answered asks the base for a new
      session if the rover is still disconnected, with one SESSION_INIT to the base, as the
      probe timer does from then on; and a reset for one restarts the numbers and forgets all
      that was tracked. Nothing else of either kind does anything. */
  lemma LossesAreAnswered(b: Book, own: string, ts: seq<Timed>, x: Context)
    requires New(b) && AllAllowed(ts)
    ensures var r := EnterAll(b, own, ts);
            var n := Apply(r.rover, own, At(x, Probe));
            if r.probes < r.losses && r.rover.session.state.DISCONNECTED?
            then n.commands == [SESSION_INIT]
                 && n.effects == [Send(NewPacket(CMD, HIGH, r.rover.proto.current, x.ts, x.text), r.rover.proto.base)]
            else n.commands == [] && n.effects == []
    ensures var r := EnterAll(b, own, ts);
            var n := Apply(r.rover, own, At(x, Session(S.ProbeTick)));
            n.commands == if r.rover.session.state.DISCONNECTED? then [SESSION_INIT] else []
    ensures var r := EnterAll(b, own, ts);
            var p, q := r.rover.proto, Apply(r.rover, own, At(x, Reset)).rover.proto;
            if r.resets < r.losses
            then q.current == 0 && q.rel == p.rel.(sent := map[], received := map[], naks := map[], acked := map[])
            else q == p
  {
    AllStayBalanced(b, own, ts);
    var r := EnterAll(b, own, ts).rover;
    ProbeAnswers(r, own, x);
    ResetAnswers(r, own, x);
  }
}
