/** The pruned tables of the reliability manager, said by what happened: exactly what each
    of them still holds, and that its answers are as if nothing had been forgotten too soon. */
module ManagerHistories {
  import opened Wire
  import opened Reliability
  import opened ReliabilityFacts
  import opened ManagerEvents

  /** The manager; the time of its last cleanup, or of the beginning; and two tables that are
      never pruned: the last NAK for each number and the last arrival of each number from each
      sender, both since the last reset. */
  datatype History = History(state: State, now: int, cleaned: int,
                             naked: map<uint8, int>, heard: map<(Endpoint, uint8), int>)

  function Step(h: History, t: Timed): History {
    History(Apply(h.state, t.event, t.now), t.now,
            if t.event.CleanupTick? && h.state.running then t.now else h.cleaned,
            if Clears(h.state, t.event) then map[]
            else if t.event.NakSent? then h.naked[t.event.seqNo := t.now] else h.naked,
            if Clears(h.state, t.event) then map[]
            else if t.event.Heard? && h.state.running then h.heard[(t.event.sender, t.event.seqNo) := t.now]
            else h.heard)
  }

  function Run(h: History, ts: seq<Timed>): History
    decreases |ts|
  {
    if ts == [] then h else Run(Step(h, ts[0]), ts[1..])
  }

  lemma {:induction false} StateFollows(h: History, ts: seq<Timed>)
    ensures Run(h, ts).state == ManagerEvents.Run(h.state, ts)
    decreases |ts|
  {
    if ts != [] {
      StateFollows(Step(h, ts[0]), ts[1..]);
    }
  }

  predicate Fresh(h: History) {
    h.state.naks == map[] && h.state.received == map[] && h.naked == map[] && h.heard == map[] && h.cleaned == h.now
  }

  // ---------------------------------------------------------------- NAK debounce

  /** The NAKs no older than 2000 ms at the last cleanup, and all since. */
  function KeptNaks(naked: map<uint8, int>, cleaned: int): map<uint8, int> {
    map k | k in naked && naked[k] >= cleaned - 2000 :: naked[k]
  }

  ghost predicate NaksAgree(h: History) {
    h.cleaned <= h.now && h.state.naks == KeptNaks(h.naked, h.cleaned)
  }

  /** What an event does to the NAK table. */
  lemma NaksAfter(s: State, e: Event, now: int)
    ensures Apply(s, e, now).naks ==
            if Clears(s, e) then map[]
            else if e.NakSent? then s.naks[e.seqNo := now]
            else if e.CleanupTick? && s.running then Young(s.naks, now, 2 * NAK_DEBOUNCE_TIME)
            else s.naks
  {
    assert Young(map[], now, 2 * NAK_DEBOUNCE_TIME) == map[];
  }

  lemma KeptLater(naked: map<uint8, int>, cleaned: int, later: int, k: uint8)
    requires cleaned <= later
    ensures KeptNaks(naked[k := later], cleaned) == KeptNaks(naked, cleaned)[k := later]
    ensures KeptNaks(naked, later) == Young(KeptNaks(naked, cleaned), later, 2 * NAK_DEBOUNCE_TIME)
  {
  }

  lemma StepKeepsNaks(h: History, t: Timed)
    requires NaksAgree(h) && h.now <= t.now
    ensures NaksAgree(Step(h, t))
  {
    NaksAfter(h.state, t.event, t.now);
    KeptLater(h.naked, h.cleaned, t.now, if t.event.NakSent? then t.event.seqNo else 0);
  }

  lemma {:induction false} RunKeepsNaks(h: History, ts: seq<Timed>)
    requires NaksAgree(h) && Monotone(h.now, ts)
    ensures NaksAgree(Run(h, ts))
    decreases |ts|
  {
    if ts != [] {
      StepKeepsNaks(h, ts[0]);
      RunKeepsNaks(Step(h, ts[0]), ts[1..]);
    }
  }

  /** However cleanups interleave with NAKs, the table holds exactly the NAKs since the last
      reset that were no older than 2000 ms at the last cleanup; and its answer is that of the
      full record. */
  lemma NakCacheAgrees(h: History, ts: seq<Timed>, k: uint8, now: int)
    requires Fresh(h) && Monotone(h.now, ts) && Run(h, ts).now <= now
    ensures Run(h, ts).state.naks == KeptNaks(Run(h, ts).naked, Run(h, ts).cleaned)
    ensures RecentlyNaked(Run(h, ts).state, k, now) <==> k in Run(h, ts).naked && now - Run(h, ts).naked[k] < 1000
  {
    RunKeepsNaks(h, ts);
  }

  // ---------------------------------------------------------------- received numbers

  /** Heard from the sender, and no longer than 30000 ms before the last cleanup. */
  predicate Retained(h: History, sender: Endpoint, k: uint8) {
    (sender, k) in h.heard && h.heard[(sender, k)] >= h.cleaned - 30000
  }

  predicate Agrees(h: History, sender: Endpoint, k: uint8) {
    var seen := ReceivedFrom(h.state, sender);
    (k in seen <==> Retained(h, sender, k)) && (k in seen ==> seen[k] == h.heard[(sender, k)])
  }

  ghost predicate HeardAgree(h: History) {
    h.cleaned <= h.now && forall e, k: uint8 :: Agrees(h, e, k)
  }

  /** What an event does to the arrivals recorded for a sender. */
  lemma ReceivedAfter(s: State, e: Event, now: int, sender: Endpoint)
    ensures ReceivedFrom(Apply(s, e, now), sender) ==
            if Clears(s, e) then map[]
            else if e.Heard? && s.running && e.sender == sender then ReceivedFrom(s, sender)[e.seqNo := now]
            else if e.CleanupTick? && s.running then Young(ReceivedFrom(s, sender), now, SEQUENCE_RETAIN_TIME)
            else ReceivedFrom(s, sender)
  {
    assert Young(map[], now, SEQUENCE_RETAIN_TIME) == map[];
  }

  lemma StepKeepsHeard(h: History, t: Timed)
    requires HeardAgree(h) && h.now <= t.now
    ensures HeardAgree(Step(h, t))
  {
    forall e, k: uint8 ensures Agrees(Step(h, t), e, k) {
      assert Agrees(h, e, k);
      ReceivedAfter(h.state, t.event, t.now, e);
    }
  }

  lemma {:induction false} RunKeepsHeard(h: History, ts: seq<Timed>)
    requires HeardAgree(h) && Monotone(h.now, ts)
    ensures HeardAgree(Run(h, ts))
    decreases |ts|
  {
    if ts != [] {
      StepKeepsHeard(h, ts[0]);
      RunKeepsHeard(Step(h, ts[0]), ts[1..]);
    }
  }

  lemma TableIsRetained(h: History, ts: seq<Timed>)
    requires Fresh(h) && Monotone(h.now, ts)
    ensures HeardAgree(Run(h, ts))
  {
    forall e, k: uint8 ensures Agrees(h, e, k) {
    }
    RunKeepsHeard(h, ts);
  }

  /** The numbers retained from a sender. */
  function RetainedFrom(h: History, sender: Endpoint): set<uint8> {
    set k: uint8 | Retained(h, sender, k)
  }

  /** In every run, a number is reported missing for a sender if and only if it is one of the
      sixteen before the largest number retained from that sender and is not itself retained:
      that is, since the last reset it was not heard, or last heard more than 30000 ms before
      the last cleanup. */
  lemma MissingByRecord(h: History, ts: seq<Timed>, sender: Endpoint, x: uint8)
    requires Fresh(h) && Monotone(h.now, ts) && h.state.role == ROVER
    ensures var r := Run(h, ts);
            var kept := RetainedFrom(r, sender);
            x in Missing(r.state, sender) <==>
            kept != {} && 1 <= Distance(Greatest(kept), x) <= 16 && !Retained(r, sender, x)
  {
    TableIsRetained(h, ts);
    StateFollows(h, ts);
    RoleStays(h.state, ts);
    var r := Run(h, ts);
    var seen := ReceivedFrom(r.state, sender);
    forall k: uint8 ensures k in seen.Keys <==> k in RetainedFrom(r, sender) {
      assert Agrees(r, sender, k);
    }
    assert seen.Keys == RetainedFrom(r, sender);
    if seen != map[] {
      MissingExact(r.state, sender);
    }
  }

  lemma {:induction false} RoleStays(s: State, ts: seq<Timed>)
    ensures ManagerEvents.Run(s, ts).role == s.role
    decreases |ts|
  {
    if ts != [] {
      RoleStays(Apply(s, ts[0].event, ts[0].now), ts[1..]);
    }
  }

  /** So a number received from a sender within the last 30000 ms, since the last reset, is not
      reported missing for that sender. */
  lemma HeardIsNotMissing(h: History, ts: seq<Timed>, sender: Endpoint, k: uint8)
    requires Fresh(h) && Monotone(h.now, ts)
    requires (sender, k) in Run(h, ts).heard && Run(h, ts).now - Run(h, ts).heard[(sender, k)] <= 30000
    ensures k !in Missing(Run(h, ts).state, sender)
  {
    TableIsRetained(h, ts);
    if h.state.role == ROVER {
      MissingByRecord(h, ts, sender, k);
    } else {
      StateFollows(h, ts);
      RoleStays(h.state, ts);
    }
  }
}
