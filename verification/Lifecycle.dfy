/** Starting and stopping: a layer that starts is what every theorem about runs begins with,
    whatever it was before; a layer that is stopped does nothing. */
module Lifecycle {
  import opened Wire
  import opened Reliability
  import opened Protocol
  import R = RoverEvents
  import B = BaseEvents
  import AckEpochs
  import AckExpiry
  import ArrivalOrder
  import NakSpacing
  import PacketFates
  import H = ManagerHistories
  import L = LayerCalls
  import V = Rovers
  import Q = StoredQueue

  /** Layer and manager stopped together. */
  predicate Stopped(p: Proto) {
    !p.running && !p.rel.running
  }

  /** Both stop, and nothing else about them changes. */
  lemma StopStops(p: Proto)
    requires p.running && p.rel.running
    ensures Stopped(ShutDown(p)) && ShutDown(p) == p.(running := false, rel := p.rel.(running := false))
  {
  }

  /** A base's layer that was stopped starts with nothing tracked or acknowledged, so that every
      run from there is one of those the theorems about the base speak of. */
  lemma BaseStartsFresh(p: Proto, now: int)
    requires Stopped(p) && IsBase(p) && p.rel.lastAckCleanup <= now
    ensures var q := StartUp(p, now);
            && B.Started(q) && q.current == p.current && q.sessionActive == p.sessionActive
            && AckEpochs.Fresh(AckEpochs.Journal(q, now, [], 0, [], []))
            && AckExpiry.Fresh(AckExpiry.Record(q, now, now, now, map[]))
            && ArrivalOrder.Fresh(ArrivalOrder.Trace(q, 0, [], []))
  {
  }

  /** The same for a rover's layer. */
  lemma RoverStartsFresh(p: Proto, now: int)
    requires Stopped(p) && !IsBase(p)
    ensures var q := StartUp(p, now);
            && R.Started(q) && q.current == p.current && q.base == p.base
            && NakSpacing.Fresh(NakSpacing.Log(q, now, []))
            && PacketFates.Fresh(PacketFates.Ledger(q.rel, now, now, [], map[]))
            && H.Fresh(H.History(q.rel, now, now, map[], map[]))
  {
    assert Young(map[], now, 2 * NAK_DEBOUNCE_TIME) == map[];
  }

  // ---------------------------------------------------------------- stopped

  /** What can happen to a stopped layer: no packet gets as far as it. */
  predicate NoArrival(e: R.Event) {
    !e.Arrive? && !e.ResetAll?
  }

  /** However long a rover's layer is stopped, its timers and those who send through it change
      nothing and send nothing. */
  lemma {:induction false} StoppedRoverIsInert(p: Proto, ts: seq<R.Timed>)
    requires Stopped(p) && forall i :: 0 <= i < |ts| ==> NoArrival(ts[i].event)
    ensures L.RunLayer(p, ts) == p
    ensures forall i :: 0 <= i < |ts| ==> R.Apply(L.RunLayer(p, ts[..i]), ts[i]) == Outcome(p, [])
    decreases |ts|
  {
    if ts != [] {
      assert NoArrival(ts[0].event);
      assert R.Apply(p, ts[0]) == Outcome(p, []);
      StoppedRoverIsInert(p, ts[1..]);
      forall i | 0 <= i < |ts| ensures R.Apply(L.RunLayer(p, ts[..i]), ts[i]) == Outcome(p, []) {
        if i > 0 {
          assert ts[..i][1..] == ts[1..][..i - 1] && ts[i] == ts[1..][i - 1];
        }
      }
    }
  }

  /** A stopped base's layer likewise. */
  lemma StoppedBaseIsInert(p: Proto, t: B.Timed)
    requires Stopped(p) && !t.event.Arrive? && !t.event.ResetAll? && !t.event.SetActive?
    ensures B.Apply(p, t) == Outcome(p, [])
  {
  }

  // ---------------------------------------------------------------- the first epoch

  /** Events of the first 10000 ms without a reset. */
  predicate Early(ts: seq<B.Timed>, until: int) {
    forall i :: 0 <= i < |ts| ==> !ts[i].event.ResetAll? && ts[i].now <= until
  }

  lemma {:induction false} NoClearYet(j: AckEpochs.Journal, ts: seq<B.Timed>, until: int)
    requires B.Started(j.proto) && Early(ts, until) && until <= j.proto.rel.lastAckCleanup + 10000
    requires KeepsData(j.proto) && B.Valid(j.now, ts)
    ensures AckEpochs.Run(j, ts).clears == j.clears
    decreases |ts|
  {
    if ts != [] {
      assert !ts[0].event.ResetAll? && ts[0].now <= until;
      B.StaysStarted(j.proto, ts[0]);
      if ts[0].event.Arrive? && IsData(ts[0].event.packet) {
        AckEpochs.DataStep(j, ts[0]);
      } else {
        AckEpochs.OtherStep(j, ts[0]);
      }
      NoClearYet(AckEpochs.Step(j, ts[0]), ts[1..], until);
    }
  }

  /** A layer made anew that starts later than 10000 ms on the clock forgets no acknowledgement
      in its first 10000 ms, without resets: the cleanup at the start begins a whole epoch. */
  lemma FirstEpochIsWhole(p: Proto, now: int, ts: seq<B.Timed>)
    requires Stopped(p) && IsBase(p) && p.rel.lastAckCleanup == 0 && now > 10000
    requires B.Valid(now, ts) && Early(ts, now + 10000)
    ensures AckEpochs.Run(AckEpochs.Journal(StartUp(p, now), now, [], 0, [], []), ts).clears == []
  {
    NoClearYet(AckEpochs.Journal(StartUp(p, now), now, [], 0, [], []), ts, now + 10000);
  }

  // ---------------------------------------------------------------- the rover

  /** A rover that is stopped and started again keeps nothing of its session and its queue, so
      that no message stored before is ever sent: its runs begin as those of a new one do. */
  lemma RestartForgets(r: V.Rover, now: int)
    requires (r.proto.running <==> r.proto.rel.running) && !IsBase(r.proto)
    ensures var n := V.Halted(r);
            && Stopped(n.proto) && n.stored == [] && n.session.state.INACTIVE?
            && Q.Fresh(Q.History(n.(proto := StartUp(n.proto, now)), [], 0, [], []))
  {
    RoverStartsFresh(ShutDown(r.proto), now);
  }
}
