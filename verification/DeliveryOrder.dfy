/** A rover and a base over a network that loses, duplicates and reorders: what the base
    passes up was sent, and exactly when it follows the order of sending. */
module DeliveryOrder {
  import opened Wire
  import opened Codec
  import opened ReliabilityFacts
  import opened Protocol
  import opened Delivery
  import A = ArrivalOrder

  /** The two parties, the data packets the rover sent to the base, in the order of their
      first sending, and the base's record of arrivals and packets passed up. */
  datatype Line = Line(world: World, sent: seq<Packet>, order: A.Trace)

  /** The packet an event sends to the base for the first time. */
  function SentIn(w: World, t: Timed): seq<Packet> {
    if t.event.AtRover? && t.event.rover.SendTo?
       && (Unspecified(t.event.rover.recipient) || t.event.rover.recipient == w.rover.base)
    then [Issued(w.rover, R.At(t.now, t.ts, t.event.rover))] else []
  }

  /** What an event is to the base. */
  function BaseEvent(w: World, t: Timed): Option<B.Timed> {
    match t.event
    case AtBase(e) => Some(B.At(t.now, t.ts, e))
    case ReachBase(p) => Some(B.At(t.now, t.ts, B.Arrive(p, w.roverEnd)))
    case _ => None
  }

  function Follow(l: Line, t: Timed): Line {
    Line(Step(l.world, t), l.sent + SentIn(l.world, t),
         match BaseEvent(l.world, t) case Some(b) => A.Step(l.order, b) case None => l.order)
  }

  function FollowAll(l: Line, ts: seq<Timed>): Line
    decreases |ts|
  {
    if ts == [] then l else FollowAll(Follow(l, ts[0]), ts[1..])
  }

  /** Runs in which numbers may be reused at will. */
  predicate AllHonest(l: Line, ts: seq<Timed>)
    decreases |ts|
  {
    ts == [] || (Honest(l.world, ts[0].event) && AllHonest(Follow(l, ts[0]), ts[1..]))
  }

  predicate Beginning(l: Line) {
    Initial(l.world) && l.sent == [] && A.Fresh(l.order) && l.order.proto == l.world.base
  }

  /** The packets passed up from one sender. */
  function From(passed: seq<(Packet, Endpoint)>, e: Endpoint): seq<Packet> {
    if passed == [] then []
    else
      var n := |passed| - 1;
      From(passed[..n], e) + if passed[n].1 == e then [passed[n].0] else []
  }

  // ---------------------------------------------------------------- nothing is invented

  predicate TrackedWasSent(w: World, sent: seq<Packet>, k: uint8)
    requires k in w.rover.rel.sent
  {
    w.rover.rel.sent[k].recipient == w.rover.base ==> w.rover.rel.sent[k].packet in sent
  }

  predicate ArrivalWasSent(l: Line, i: nat)
    requires i < |l.order.arrived|
  {
    l.order.arrived[i].from == l.world.roverEnd ==> l.order.arrived[i].packet in l.sent
  }

  ghost predicate Sound(l: Line) {
    && R.Started(l.world.rover) && l.order.proto == l.world.base && A.Ordered(l.order)
    && (forall c :: c in l.world.toBase && IsData(c) ==> c in l.sent)
    && (forall k :: k in l.world.rover.rel.sent ==> TrackedWasSent(l.world, l.sent, k))
    && (forall i :: 0 <= i < |l.order.arrived| ==> ArrivalWasSent(l, i))
  }

  /** What a rover's event other than a send puts in flight was tracked for the base. */
  lemma OnlyTrackedForBase(p: Proto, t: R.Timed, x: Packet)
    requires R.Started(p) && !t.event.SendTo? && Send(x, p.base) in R.Apply(p, t).effects && IsData(x)
    ensures exists k :: k in p.rel.sent && p.rel.sent[k].packet == x && p.rel.sent[k].recipient == p.base
  {
    if t.event.RetransmitTick? {
      ResendExact(p.rel, t.now);
    } else if t.event.Arrive? {
      R.ArrivalFrame(p, t.event.packet, t.event.from, t.now, t.ts);
    }
  }

  /** A rover's event other than a send tracks nothing new. */
  lemma TrackedForBase(p: Proto, t: R.Timed, k: uint8)
    requires R.Started(p) && !t.event.SendTo? && k in R.Apply(p, t).proto.rel.sent
    ensures k in p.rel.sent
    ensures var s, s' := p.rel.sent[k], R.Apply(p, t).proto.rel.sent[k];
            s'.packet == s.packet && s'.recipient == s.recipient
  {
    if t.event.RetransmitTick? {
      KeptIsSame(p.rel, t.now, k);
    } else if t.event.Arrive? {
      R.ArrivalFrame(p, t.event.packet, t.event.from, t.now, t.ts);
    }
  }

  lemma KeptIsSame(s: Reliability.State, now: int, k: uint8)
    requires s.role == Reliability.ROVER && k in Reliability.RetransmitCheck(s, now).state.sent
    ensures k in s.sent
    ensures var e := Reliability.RetransmitCheck(s, now).state.sent[k];
            e.packet == s.sent[k].packet && e.recipient == s.sent[k].recipient
  {
  }

  lemma OtherRoverMove(l: Line, t: R.Timed)
    requires Sound(l) && !t.event.SendTo?
    ensures Sound(l.(world := RoverMoves(l.world, t)))
  {
    var w, w' := l.world, RoverMoves(l.world, t);
    OthersOnlyTracked(w.rover, t);
    forall c | c in w'.toBase && IsData(c) ensures c in l.sent {
      if c !in w.toBase {
        OnlyTrackedForBase(w.rover, t, c);
        var sent := w.rover.rel.sent;
        var k :| k in sent && sent[k].packet == c && sent[k].recipient == w.rover.base;
        assert TrackedWasSent(w, l.sent, k);
      }
    }
    forall k | k in w'.rover.rel.sent ensures TrackedWasSent(w', l.sent, k) {
      TrackedForBase(w.rover, t, k);
      assert TrackedWasSent(w, l.sent, k);
    }
    forall i | 0 <= i < |l.order.arrived| ensures ArrivalWasSent(l.(world := w'), i) {
      assert ArrivalWasSent(l, i);
    }
  }

  lemma SendMove(l: Line, t: Timed)
    requires Sound(l) && t.event.AtRover? && t.event.rover.SendTo? && Honest(l.world, t.event)
    ensures Sound(Follow(l, t))
  {
    var w, w', rt := l.world, Step(l.world, t), R.At(t.now, t.ts, t.event.rover);
    SendTracks(w.rover, rt);
    var l' := Follow(l, t);
    forall c | c in w'.toBase && IsData(c) ensures c in l'.sent {
    }
    forall k | k in w'.rover.rel.sent ensures TrackedWasSent(w', l'.sent, k) {
      if k in w.rover.rel.sent {
        assert TrackedWasSent(w, l.sent, k);
      } else {
        SendRecipient(w.rover, rt);
      }
    }
    forall i | 0 <= i < |l'.order.arrived| ensures ArrivalWasSent(l', i) {
      assert ArrivalWasSent(l, i);
    }
  }

  lemma SendRecipient(p: Proto, t: R.Timed)
    requires R.Started(p) && t.event.SendTo? && R.Allowed(t.event) && p.current !in p.rel.sent
    ensures var s := R.Apply(p, t).proto.rel.sent;
            p.current in s && s[p.current].packet == Issued(p, t)
            && s[p.current].recipient == if Unspecified(t.event.recipient) then p.base else t.event.recipient
  {
  }

  /** The rover, the copies in flight and the send log stay, and what arrives was sent. */
  lemma ArrivalsStaySound(l: Line, l': Line, more: seq<A.Arrival>)
    requires Sound(l) && A.Ordered(l'.order) && l'.order.proto == l'.world.base && l'.sent == l.sent
    requires l'.world.rover == l.world.rover && l'.world.toBase == l.world.toBase
    requires l'.world.roverEnd == l.world.roverEnd
    requires l'.order.arrived == l.order.arrived + more
    requires forall i :: 0 <= i < |more| && more[i].from == l.world.roverEnd ==> more[i].packet in l.sent
    ensures Sound(l')
  {
    forall k | k in l'.world.rover.rel.sent ensures TrackedWasSent(l'.world, l'.sent, k) {
      assert TrackedWasSent(l.world, l.sent, k);
    }
    forall i | 0 <= i < |l'.order.arrived| ensures ArrivalWasSent(l', i) {
      if i < |l.order.arrived| {
        assert ArrivalWasSent(l, i);
      }
    }
  }

  /** What an event of the base does to the rest. */
  lemma BaseFrame(l: Line, t: Timed, b: B.Timed)
    requires BaseEvent(l.world, t) == Some(b) && l.order.proto == l.world.base
    ensures var l' := Follow(l, t);
            && l'.world == BaseMoves(l.world, b) && l'.order == A.Step(l.order, b) && l'.sent == l.sent
            && l'.order.proto == l'.world.base
  {
    assert l.sent + [] == l.sent;
  }

  lemma BaseMoveFrame(w: World, b: B.Timed)
    ensures var w' := BaseMoves(w, b); w'.rover == w.rover && w'.toBase == w.toBase && w'.roverEnd == w.roverEnd
  {
  }

  lemma BaseMove(l: Line, t: Timed, b: B.Timed)
    requires Sound(l) && BaseEvent(l.world, t) == Some(b) && B.Allowed(b.event)
    requires b.event.Arrive? && b.event.from == l.world.roverEnd && IsData(b.event.packet) ==> b.event.packet in l.sent
    ensures Sound(Follow(l, t))
  {
    BaseFrame(l, t, b);
    BaseMoveFrame(l.world, b);
    A.StepStaysOrdered(l.order, b);
    ArrivalsStaySound(l, Follow(l, t), A.ArrivedIn(l.order, b));
  }

  lemma StepStaysSound(l: Line, t: Timed)
    requires Sound(l) && Honest(l.world, t.event)
    ensures Sound(Follow(l, t))
  {
    assert l.sent + [] == l.sent;
    match t.event
    case AtRover(e) =>
      if e.SendTo? {
        SendMove(l, t);
      } else {
        OtherRoverMove(l, R.At(t.now, t.ts, e));
      }
    case AtBase(e) => BaseMove(l, t, B.At(t.now, t.ts, e));
    case ReachBase(p) => BaseMove(l, t, B.At(t.now, t.ts, B.Arrive(p, l.world.roverEnd)));
    case ReachRover(p) => OtherRoverMove(l, R.At(t.now, t.ts, R.Arrive(p, l.world.rover.base)));
    case Lose(_, _) =>
      var l' := Follow(l, t);
      forall k | k in l'.world.rover.rel.sent ensures TrackedWasSent(l'.world, l'.sent, k) {
        assert TrackedWasSent(l.world, l.sent, k);
      }
      forall i | 0 <= i < |l'.order.arrived| ensures ArrivalWasSent(l', i) {
        assert ArrivalWasSent(l, i);
      }
  }

  lemma {:induction false} RunStaysSound(l: Line, ts: seq<Timed>)
    requires Sound(l) && AllHonest(l, ts)
    ensures Sound(FollowAll(l, ts))
    decreases |ts|
  {
    if ts != [] {
      StepStaysSound(l, ts[0]);
      RunStaysSound(Follow(l, ts[0]), ts[1..]);
    }
  }

  // ---------------------------------------------------------------- the order of sending

  /** Where a packet was first sent. */
  function Position(sent: seq<Packet>, x: Packet): (n: nat)
    ensures n <= |sent| && (x in sent ==> n < |sent| && sent[n] == x)
    ensures forall i :: 0 <= i < n ==> sent[i] != x
  {
    if sent == [] || sent[0] == x then 0
    else
      var n := 1 + Position(sent[1..], x);
      assert x in sent ==> x in sent[1..];
      n
  }

  /** No packet comes after itself or after one first sent later. */
  ghost predicate InOrder(ps: seq<Packet>, sent: seq<Packet>) {
    forall i, j :: 0 <= i < j < |ps| ==> Position(sent, ps[i]) < Position(sent, ps[j])
  }

  /** The n-th arrival is from `e` and a first copy. */
  ghost predicate Counts(arrived: seq<A.Arrival>, e: Endpoint, n: nat)
    requires n < |arrived|
  {
    arrived[n].from == e && A.FirstCopy(arrived[..n], arrived[n])
  }

  /** No first copy from `e` arrives after that of a packet sent at the same time or later. */
  ghost predicate NoOvertaking(arrived: seq<A.Arrival>, e: Endpoint, sent: seq<Packet>) {
    forall i, j :: 0 <= i < j < |arrived| && Counts(arrived, e, i) && Counts(arrived, e, j) ==>
      Position(sent, arrived[i].packet) < Position(sent, arrived[j].packet)
  }

  lemma CountsPrefix(arrived: seq<A.Arrival>, e: Endpoint, n: nat, i: nat)
    requires i < n <= |arrived|
    ensures Counts(arrived[..n], e, i) <==> Counts(arrived, e, i)
  {
    assert arrived[..n][..i] == arrived[..i];
  }

  lemma FromSnoc(passed: seq<(Packet, Endpoint)>, x: (Packet, Endpoint), e: Endpoint)
    ensures From(passed + [x], e) == From(passed, e) + if x.1 == e then [x.0] else []
  {
    assert (passed + [x])[..|passed|] == passed;
  }

  /** What is passed up from `e` at the n-th arrival. */
  lemma FromFirstCopies(arrived: seq<A.Arrival>, e: Endpoint)
    requires arrived != []
    ensures var n := |arrived| - 1;
            From(A.FirstCopies(arrived), e)
            == From(A.FirstCopies(arrived[..n]), e) + if Counts(arrived, e, n) then [arrived[n].packet] else []
  {
    var n := |arrived| - 1;
    var before := A.FirstCopies(arrived[..n]);
    if A.FirstCopy(arrived[..n], arrived[n]) {
      FromSnoc(before, (arrived[n].packet, arrived[n].from), e);
    } else {
      assert before + [] == before && From(before, e) + [] == From(before, e);
    }
  }

  /** A first copy of the packet arrived from `e`. */
  ghost predicate Came(arrived: seq<A.Arrival>, e: Endpoint, x: Packet) {
    exists i :: 0 <= i < |arrived| && Counts(arrived, e, i) && arrived[i].packet == x
  }

  lemma CameSnoc(arrived: seq<A.Arrival>, e: Endpoint, x: Packet)
    requires arrived != []
    ensures var n := |arrived| - 1;
            Came(arrived, e, x) <==> Came(arrived[..n], e, x) || (Counts(arrived, e, n) && arrived[n].packet == x)
  {
    var n := |arrived| - 1;
    if Came(arrived[..n], e, x) {
      var i :| 0 <= i < n && Counts(arrived[..n], e, i) && arrived[..n][i].packet == x;
      CountsPrefix(arrived, e, n, i);
      assert arrived[i].packet == x;
    }
    if Came(arrived, e, x) {
      var i :| 0 <= i < |arrived| && Counts(arrived, e, i) && arrived[i].packet == x;
      if i < n {
        CountsPrefix(arrived, e, n, i);
        assert arrived[..n][i].packet == x;
      }
    }
  }

  /** Exactly the packets of first copies are passed up. */
  lemma {:induction false} PassedMembers(arrived: seq<A.Arrival>, e: Endpoint, x: Packet)
    ensures x in From(A.FirstCopies(arrived), e) <==> Came(arrived, e, x)
    decreases |arrived|
  {
    if arrived != [] {
      PassedMembers(arrived[..|arrived| - 1], e, x);
      FromFirstCopies(arrived, e);
      CameSnoc(arrived, e, x);
    }
  }

  lemma InOrderSnoc(ps: seq<Packet>, x: Packet, sent: seq<Packet>)
    ensures InOrder(ps + [x], sent)
            <==> InOrder(ps, sent) && forall y :: y in ps ==> Position(sent, y) < Position(sent, x)
  {
    var all := ps + [x];
    if InOrder(all, sent) {
      forall i, j | 0 <= i < j < |ps| ensures Position(sent, ps[i]) < Position(sent, ps[j]) {
        assert Position(sent, all[i]) < Position(sent, all[j]);
      }
      forall y | y in ps ensures Position(sent, y) < Position(sent, x) {
        var i :| 0 <= i < |ps| && ps[i] == y;
        assert Position(sent, all[i]) < Position(sent, all[|ps|]);
      }
    }
  }

  lemma OvertakingSnoc(arrived: seq<A.Arrival>, e: Endpoint, sent: seq<Packet>)
    requires arrived != []
    ensures var n := |arrived| - 1;
            NoOvertaking(arrived, e, sent) <==>
            && NoOvertaking(arrived[..n], e, sent)
            && (Counts(arrived, e, n) ==> forall i :: 0 <= i < n && Counts(arrived, e, i) ==>
                  Position(sent, arrived[i].packet) < Position(sent, arrived[n].packet))
  {
    var n := |arrived| - 1;
    forall i | 0 <= i < n ensures Counts(arrived[..n], e, i) <==> Counts(arrived, e, i) {
      CountsPrefix(arrived, e, n, i);
    }
    if NoOvertaking(arrived, e, sent) {
      forall i, j | 0 <= i < j < n && Counts(arrived[..n], e, i) && Counts(arrived[..n], e, j)
        ensures Position(sent, arrived[..n][i].packet) < Position(sent, arrived[..n][j].packet)
      {
        assert Counts(arrived, e, i) && Counts(arrived, e, j);
      }
    } else {
      var i, j :| 0 <= i < j < |arrived| && Counts(arrived, e, i) && Counts(arrived, e, j)
                  && Position(sent, arrived[i].packet) >= Position(sent, arrived[j].packet);
      assert j < n ==> arrived[..n][i] == arrived[i] && arrived[..n][j] == arrived[j];
    }
  }

  lemma {:induction false} OrderOfFirstCopies(arrived: seq<A.Arrival>, e: Endpoint, sent: seq<Packet>)
    ensures InOrder(From(A.FirstCopies(arrived), e), sent) <==> NoOvertaking(arrived, e, sent)
    decreases |arrived|
  {
    if arrived != [] {
      var n := |arrived| - 1;
      var before := From(A.FirstCopies(arrived[..n]), e);
      OrderOfFirstCopies(arrived[..n], e, sent);
      OvertakingSnoc(arrived, e, sent);
      FromFirstCopies(arrived, e);
      if Counts(arrived, e, n) {
        InOrderSnoc(before, arrived[n].packet, sent);
        EarlierCounts(arrived, e, sent);
      } else {
        assert before + [] == before;
      }
    }
  }

  /** The packets passed up before the last arrival are those of the earlier first copies. */
  lemma EarlierCounts(arrived: seq<A.Arrival>, e: Endpoint, sent: seq<Packet>)
    requires arrived != []
    ensures var n := |arrived| - 1;
            (forall y :: y in From(A.FirstCopies(arrived[..n]), e) ==>
               Position(sent, y) < Position(sent, arrived[n].packet))
            <==> (forall i :: 0 <= i < n && Counts(arrived, e, i) ==>
                    Position(sent, arrived[i].packet) < Position(sent, arrived[n].packet))
  {
    var n := |arrived| - 1;
    var before := From(A.FirstCopies(arrived[..n]), e);
    forall i | 0 <= i < n && Counts(arrived, e, i) ensures arrived[i].packet in before {
      CountsPrefix(arrived, e, n, i);
      assert arrived[..n][i].packet == arrived[i].packet;
      assert Came(arrived[..n], e, arrived[i].packet);
      PassedMembers(arrived[..n], e, arrived[i].packet);
    }
    forall y | y in before ensures exists i :: 0 <= i < n && Counts(arrived, e, i) && arrived[i].packet == y {
      PassedMembers(arrived[..n], e, y);
      var i :| 0 <= i < n && Counts(arrived[..n], e, i) && arrived[..n][i].packet == y;
      CountsPrefix(arrived, e, n, i);
      assert Counts(arrived, e, i) && arrived[i].packet == y;
    }
  }

  // ---------------------------------------------------------------- the theorems

  /** In every run, whatever is lost, duplicated or reordered and however numbers are reused:
      the base passes up only packets that the rover sent to it, and it does so in the order
      of sending exactly when no first copy was overtaken on the way. */
  lemma InOrderIffNotOvertaken(l: Line, ts: seq<Timed>)
    requires Beginning(l) && AllHonest(l, ts)
    ensures var r := FollowAll(l, ts);
            var passed := From(r.order.passed, r.world.roverEnd);
            && (forall x :: x in passed ==> x in r.sent)
            && (InOrder(passed, r.sent) <==> NoOvertaking(r.order.arrived, r.world.roverEnd, r.sent))
  {
    RunStaysSound(l, ts);
    var r := FollowAll(l, ts);
    var e := r.world.roverEnd;
    forall x | x in From(r.order.passed, e) ensures x in r.sent {
      PassedMembers(r.order.arrived, e, x);
      var i :| 0 <= i < |r.order.arrived| && Counts(r.order.arrived, e, i) && r.order.arrived[i].packet == x;
      assert ArrivalWasSent(r, i);
    }
    OrderOfFirstCopies(r.order.arrived, e, r.sent);
  }

  // ---------------------------------------------------------------- a witness

  lemma {:induction false} FollowSnoc(l: Line, ts: seq<Timed>, t: Timed)
    requires AllHonest(l, ts) && Honest(FollowAll(l, ts).world, t.event)
    ensures AllHonest(l, ts + [t]) && FollowAll(l, ts + [t]) == Follow(FollowAll(l, ts), t)
    decreases |ts|
  {
    if ts == [] {
      assert ts + [t] == [t] && [t][1..] == [];
    } else {
      assert (ts + [t])[1..] == ts[1..] + [t] && (ts + [t])[0] == ts[0];
      FollowSnoc(Follow(l, ts[0]), ts[1..], t);
    }
  }

  /** A send puts its packet in flight and in the log, and does nothing else to the base. */
  lemma SendOne(l: Line, t: R.Timed)
    requires R.Started(l.world.rover) && t.event.SendTo? && R.Allowed(t.event) && t.event.recipient == UNSPECIFIED
    ensures var p, r := l.world.rover, Follow(l, At(t.now, t.ts, AtRover(t.event)));
            && r.sent == l.sent + [Issued(p, t)] && r.world.toBase == l.world.toBase + {Issued(p, t)}
            && R.Started(r.world.rover) && r.world.rover.current == Next(p.current)
            && r.order == l.order && r.world.roverEnd == l.world.roverEnd
            && IsData(Issued(p, t)) && Issued(p, t).header.sequence == p.current
  {
    var p, x := l.world.rover, Issued(l.world.rover, t);
    SendTracks(p, t);
    assert SentTo([Send(x, p.base)], p.base) == {x} by {
      assert [Send(x, p.base)][0] == Send(x, p.base);
    }
  }

  /** Two packets are sent and in flight. */
  ghost predicate InFlight(l: Line, start: Line, run: seq<Timed>, x: Packet, y: Packet) {
    && AllHonest(start, run) && FollowAll(start, run) == l
    && l.sent == [x, y] && x in l.world.toBase && y in l.world.toBase && l.order == start.order
    && IsData(x) && IsData(y) && x.header.sequence != y.header.sequence
  }

  lemma SendTwo(l: Line, now: int, ts: bv32, a: Bytes, b: Bytes)
    returns (r: Line, run: seq<Timed>, x: Packet, y: Packet)
    requires Beginning(l)
    ensures InFlight(r, l, run, x, y)
  {
    var s1 := R.At(now, ts, R.SendTo(a, DATA, MEDIUM, UNSPECIFIED));
    var s2 := R.At(now, ts, R.SendTo(b, DATA, MEDIUM, UNSPECIFIED));
    var e1, e2 := At(now, ts, AtRover(s1.event)), At(now, ts, AtRover(s2.event));
    SendOne(l, s1);
    FollowSnoc(l, [], e1);
    var l1 := Follow(l, e1);
    SendOne(l1, s2);
    FollowSnoc(l, [] + [e1], e2);
    r, run, x, y := Follow(l1, e2), [] + [e1] + [e2], Issued(l.world.rover, s1), Issued(l1.world.rover, s2);
  }

  /** The second of two packets arrives first: both are passed up, in that order. */
  lemma ArriveSwapped(order: A.Trace, x: Packet, y: Packet, e: Endpoint, now: int, ts: bv32)
    requires A.Fresh(order) && IsData(x) && IsData(y) && x.header.sequence != y.header.sequence
    ensures A.Step(A.Step(order, B.At(now, ts, B.Arrive(y, e))), B.At(now, ts, B.Arrive(x, e))).passed
         == [(y, e), (x, e)]
  {
    var first, second := B.At(now, ts, B.Arrive(y, e)), B.At(now, ts, B.Arrive(x, e));
    var o1 := A.Step(order, first);
    A.DataStep(order, first);
    B.StaysStarted(order.proto, first);
    A.DataStep(o1, second);
  }

  lemma FromPair(x: Packet, y: Packet, e: Endpoint)
    ensures From([(y, e), (x, e)], e) == [y, x]
  {
    FromSnoc([], (y, e), e);
    FromSnoc([(y, e)], (x, e), e);
    assert [] + [(y, e)] == [(y, e)] && [(y, e)] + [(x, e)] == [(y, e), (x, e)];
  }

  /** What a copy that arrives does to the record of the base. */
  lemma ReachOne(l: Line, x: Packet, now: int, ts: bv32)
    requires x in l.world.toBase
    ensures var t := At(now, ts, ReachBase(x));
            var r := Follow(l, t);
            && Honest(l.world, t.event) && r.sent == l.sent && r.world.toBase == l.world.toBase
            && r.world.roverEnd == l.world.roverEnd
            && r.order == A.Step(l.order, B.At(now, ts, B.Arrive(x, l.world.roverEnd)))
  {
    assert l.sent + [] == l.sent;
  }

  lemma ReachSwapped(l: Line, start: Line, run: seq<Timed>, x: Packet, y: Packet, now: int, ts: bv32)
    returns (r: Line, more: seq<Timed>)
    requires InFlight(l, start, run, x, y) && A.Fresh(start.order)
    ensures AllHonest(start, more) && FollowAll(start, more) == r
    ensures r.sent == [x, y] && From(r.order.passed, r.world.roverEnd) == [y, x]
  {
    var e3, e4 := At(now, ts, ReachBase(y)), At(now, ts, ReachBase(x));
    ReachOne(l, y, now, ts);
    FollowSnoc(start, run, e3);
    var l3 := Follow(l, e3);
    ReachOne(l3, x, now, ts);
    FollowSnoc(start, run + [e3], e4);
    r, more := Follow(l3, e4), run + [e3] + [e4];
    ArriveSwapped(l.order, x, y, l.world.roverEnd, now, ts);
    FromPair(x, y, l.world.roverEnd);
  }

  lemma Swapped(x: Packet, y: Packet)
    requires x != y
    ensures !InOrder([y, x], [x, y])
  {
    assert Position([x, y], [y, x][0]) > Position([x, y], [y, x][1]);
  }

  /** Delivery is not in order: two packets sent one after the other, of which the second
      arrives first, are passed up the second one first. */
  lemma OutOfOrder(l: Line, now: int, ts: bv32, a: Bytes, b: Bytes) returns (run: seq<Timed>)
    requires Beginning(l)
    ensures AllHonest(l, run)
    ensures var r := FollowAll(l, run);
            var passed := From(r.order.passed, r.world.roverEnd);
            && |r.sent| == 2 && passed == [r.sent[1], r.sent[0]] && !InOrder(passed, r.sent)
  {
    var l2, sends, x, y := SendTwo(l, now, ts, a, b);
    var l4;
    l4, run := ReachSwapped(l2, l, sends, x, y, now, ts);
    Swapped(x, y);
  }
}
