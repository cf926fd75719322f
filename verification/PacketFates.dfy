/** Whole runs of the rover's reliability manager: every tracked packet has exactly one
    fate, and retransmissions keep to the backoff schedule. */
module PacketFates {
  import opened Wire
  import opened Codec
  import opened Reliability
  import opened ManagerEvents

  // ---------------------------------------------------------------- lives

  /** What became of a packet that entered the table. */
  datatype Fate = Live | Acknowledged | Abandoned(at: int) | Cleared

  datatype Life = Life(seqNo: uint8, packet: Packet, recipient: Endpoint, born: int,
                       resends: seq<int>, fate: Fate)

  /** The manager, and the history of every packet it ever tracked. `index` finds the life
      behind each current entry. */
  datatype Ledger = Ledger(state: State, now: int, lastCheck: int, lives: seq<Life>, index: map<uint8, nat>)

  predicate Enters(s: State, e: Event) {
    e.Track? && s.running && e.seqNo !in s.sent
  }

  function NewLife(e: Event, now: int): Life
    requires e.Track?
  {
    Life(e.seqNo, e.packet, e.recipient, now, [], Live)
  }

  predicate Checks(s: State, e: Event) {
    e.RetransmitTick? && s.running
  }

  function NextLife(l: Life, s: State, e: Event, now: int): Life {
    if !l.fate.Live? || l.seqNo !in s.sent then l
    else if Clears(s, e) then l.(fate := Cleared)
    else if e.AckFor? && s.running && e.seqNo == l.seqNo then l.(fate := Acknowledged)
    else if Checks(s, e) && GivenUp(s.sent[l.seqNo], now) then
      l.(fate := Abandoned(now))
    else if Checks(s, e) && Due(s.sent[l.seqNo], now) then l.(resends := l.resends + [now])
    else l
  }

  function NextLives(lives: seq<Life>, s: State, e: Event, now: int): (r: seq<Life>)
    ensures |r| == |lives| && forall i :: 0 <= i < |lives| ==> r[i] == NextLife(lives[i], s, e, now)
  {
    seq(|lives|, i requires 0 <= i < |lives| => NextLife(lives[i], s, e, now))
  }

  function Step(g: Ledger, t: Timed): Ledger {
    var s, s' := g.state, Apply(g.state, t.event, t.now);
    Ledger(s', t.now,
           if Checks(s, t.event) then t.now else g.lastCheck,
           NextLives(g.lives, s, t.event, t.now) + (if Enters(s, t.event) then [NewLife(t.event, t.now)] else []),
           map k | k in s'.sent :: if k in g.index then g.index[k] else |g.lives|)
  }

  function Run(g: Ledger, ts: seq<Timed>): Ledger
    decreases |ts|
  {
    if ts == [] then g else Run(Step(g, ts[0]), ts[1..])
  }

  lemma {:induction false} StateFollows(g: Ledger, ts: seq<Timed>)
    ensures Run(g, ts).state == ManagerEvents.Run(g.state, ts)
    decreases |ts|
  {
    if ts != [] {
      StateFollows(Step(g, ts[0]), ts[1..]);
    }
  }

  /** At every event the last check is at most `d` milliseconds old. */
  predicate Timely(g: Ledger, ts: seq<Timed>, d: nat)
    decreases |ts|
  {
    ts == [] || (ts[0].now - g.lastCheck <= d && Timely(Step(g, ts[0]), ts[1..], d))
  }

  /** A rover's manager that tracks nothing yet. */
  predicate Fresh(g: Ledger) {
    && g.state.role == ROVER && g.state.sent == map[]
    && g.lives == [] && g.index == map[] && g.lastCheck == g.now
  }

  // ---------------------------------------------------------------- lives follow entries

  function SentBefore(l: Life, j: nat): int
    requires j <= |l.resends|
  {
    if j == 0 then l.born else l.resends[j - 1]
  }

  function LastSent(l: Life): int {
    SentBefore(l, |l.resends|)
  }

  predicate Matches(l: Life, info: SentInfo) {
    && info.packet == l.packet && info.recipient == l.recipient
    && info.retryCount == |l.resends| && info.sentTime == LastSent(l)
  }

  lemma LifeFollowsEntry(l: Life, s: State, e: Event, now: int)
    requires s.role == ROVER && l.fate.Live? && l.seqNo in s.sent && Matches(l, s.sent[l.seqNo])
    ensures var l', s' := NextLife(l, s, e, now), Apply(s, e, now);
            && l'.seqNo == l.seqNo
            && (l'.fate.Live? <==> l.seqNo in s'.sent)
            && (l'.fate.Live? ==> Matches(l', s'.sent[l.seqNo]))
  {
  }

  lemma EntriesComeFromTracking(s: State, e: Event, now: int, k: uint8)
    requires k in Apply(s, e, now).sent && k !in s.sent
    ensures Enters(s, e) && k == e.seqNo && Apply(s, e, now).sent[k] == SentInfo(e.packet, now, 0, e.recipient)
  {
  }

  lemma RoleKept(s: State, e: Event, now: int)
    ensures Apply(s, e, now).role == s.role
  {
  }

  /** The entry for `k` belongs to a live packet that matches it. */
  predicate HasLife(g: Ledger, k: uint8) {
    && k in g.index && k in g.state.sent && g.index[k] < |g.lives|
    && var l := g.lives[g.index[k]];
       l.fate.Live? && l.seqNo == k && Matches(l, g.state.sent[k])
  }

  /** The i-th packet, if live, is the one behind the entry of its number. */
  predicate HasEntry(g: Ledger, i: nat)
    requires i < |g.lives|
  {
    g.lives[i].fate.Live? ==> g.lives[i].seqNo in g.index && g.index[g.lives[i].seqNo] == i
  }

  /** The live packets are exactly the current entries, one each. */
  ghost predicate Indexed(g: Ledger) {
    && g.state.role == ROVER && g.index.Keys == g.state.sent.Keys
    && (forall k :: k in g.state.sent ==> HasLife(g, k))
    && (forall i :: 0 <= i < |g.lives| ==> HasEntry(g, i))
  }

  lemma StepKeepsEntry(g: Ledger, t: Timed, k: uint8)
    requires Indexed(g) && k in Step(g, t).state.sent
    ensures HasLife(Step(g, t), k)
  {
    if k in g.index {
      assert HasLife(g, k);
      LifeFollowsEntry(g.lives[g.index[k]], g.state, t.event, t.now);
    } else {
      EntriesComeFromTracking(g.state, t.event, t.now, k);
    }
  }

  lemma StepKeepsLife(g: Ledger, t: Timed, i: nat)
    requires Indexed(g) && i < |Step(g, t).lives|
    ensures HasEntry(Step(g, t), i)
  {
    if i < |g.lives| && g.lives[i].fate.Live? {
      assert HasEntry(g, i) && HasLife(g, g.lives[i].seqNo);
      LifeFollowsEntry(g.lives[i], g.state, t.event, t.now);
    }
  }

  lemma StepKeepsIndex(g: Ledger, t: Timed)
    requires Indexed(g)
    ensures Indexed(Step(g, t))
  {
    RoleKept(g.state, t.event, t.now);
    forall k | k in Step(g, t).state.sent ensures HasLife(Step(g, t), k) {
      StepKeepsEntry(g, t, k);
    }
    forall i | 0 <= i < |Step(g, t).lives| ensures HasEntry(Step(g, t), i) {
      StepKeepsLife(g, t, i);
    }
  }

  lemma LiveMatches(g: Ledger, i: nat)
    requires Indexed(g) && i < |g.lives| && g.lives[i].fate.Live?
    ensures g.lives[i].seqNo in g.state.sent && Matches(g.lives[i], g.state.sent[g.lives[i].seqNo])
  {
    assert HasEntry(g, i) && HasLife(g, g.lives[i].seqNo);
  }

  // ---------------------------------------------------------------- the backoff schedule

  /** Each sending waited longer than its timeout, and at most two were repeats. */
  ghost predicate Spaced(l: Life) {
    && |l.resends| <= MAX_RETRIES
    && (forall j :: 0 <= j < |l.resends| ==> l.resends[j] - SentBefore(l, j) > Timeout(j))
    && (l.fate.Abandoned? ==> |l.resends| == MAX_RETRIES && l.fate.at - LastSent(l) > Timeout(MAX_RETRIES))
  }

  /** Each sending came at most `d` after its timeout, and no check since the last one
      found it expired. */
  ghost predicate Prompt(l: Life, lastCheck: int, d: nat) {
    && (forall j :: 0 <= j < |l.resends| ==> l.resends[j] - SentBefore(l, j) <= Timeout(j) + d)
    && (l.fate.Live? ==> lastCheck - LastSent(l) <= Timeout(|l.resends|))
    && (l.fate.Abandoned? ==> l.fate.at - LastSent(l) <= Timeout(|l.resends|) + d)
  }

  lemma LifeStaysSpaced(l: Life, s: State, e: Event, now: int)
    requires s.role == ROVER && Spaced(l)
    requires l.fate.Live? ==> l.seqNo in s.sent && Matches(l, s.sent[l.seqNo])
    ensures Spaced(NextLife(l, s, e, now))
  {
  }

  lemma LifeStaysPrompt(l: Life, s: State, e: Event, now: int, lastCheck: int, d: nat)
    requires s.role == ROVER && Prompt(l, lastCheck, d) && now - lastCheck <= d
    requires l.fate.Live? ==> l.seqNo in s.sent && Matches(l, s.sent[l.seqNo])
    ensures Prompt(NextLife(l, s, e, now), if Checks(s, e) then now else lastCheck, d)
  {
  }

  ghost predicate Scheduled(g: Ledger) {
    forall i :: 0 <= i < |g.lives| ==> Spaced(g.lives[i])
  }

  ghost predicate AllPrompt(g: Ledger, d: nat) {
    && g.lastCheck <= g.now
    && forall i :: 0 <= i < |g.lives| ==> Prompt(g.lives[i], g.lastCheck, d)
  }

  lemma StepKeepsSchedule(g: Ledger, t: Timed)
    requires Indexed(g) && Scheduled(g)
    ensures Scheduled(Step(g, t))
  {
    var g' := Step(g, t);
    forall i | 0 <= i < |g'.lives| ensures Spaced(g'.lives[i]) {
      if i < |g.lives| {
        if g.lives[i].fate.Live? {
          LiveMatches(g, i);
        }
        LifeStaysSpaced(g.lives[i], g.state, t.event, t.now);
      }
    }
  }

  lemma StepKeepsPrompt(g: Ledger, t: Timed, d: nat)
    requires Indexed(g) && AllPrompt(g, d) && g.now <= t.now && t.now - g.lastCheck <= d
    ensures AllPrompt(Step(g, t), d)
  {
    var g' := Step(g, t);
    forall i | 0 <= i < |g'.lives| ensures Prompt(g'.lives[i], g'.lastCheck, d) {
      if i < |g.lives| {
        if g.lives[i].fate.Live? {
          LiveMatches(g, i);
        }
        LifeStaysPrompt(g.lives[i], g.state, t.event, t.now, g.lastCheck, d);
      }
    }
  }

  lemma {:induction false} RunKeepsSchedule(g: Ledger, ts: seq<Timed>)
    requires Indexed(g) && Scheduled(g)
    ensures Indexed(Run(g, ts)) && Scheduled(Run(g, ts))
    decreases |ts|
  {
    if ts != [] {
      StepKeepsIndex(g, ts[0]);
      StepKeepsSchedule(g, ts[0]);
      RunKeepsSchedule(Step(g, ts[0]), ts[1..]);
    }
  }

  lemma {:induction false} RunStaysPrompt(g: Ledger, ts: seq<Timed>, d: nat)
    requires Indexed(g) && AllPrompt(g, d) && Monotone(g.now, ts) && Timely(g, ts, d)
    ensures AllPrompt(Run(g, ts), d)
    decreases |ts|
  {
    if ts != [] {
      StepKeepsIndex(g, ts[0]);
      StepKeepsPrompt(g, ts[0], d);
      RunStaysPrompt(Step(g, ts[0]), ts[1..], d);
    }
  }

  // ---------------------------------------------------------------- the theorems

  lemma TimeoutsAre()
    ensures Timeout(0) == 5000 && Timeout(1) == 10000 && Timeout(2) == 20000
  {
  }

  /** In every run, each packet that ever entered the table is in it now, or was
      acknowledged, abandoned or cleared; current entries and live packets correspond one to
      one; and no entry is ever retried more than twice. */
  lemma EveryPacketHasOneFate(g: Ledger, ts: seq<Timed>)
    requires Fresh(g)
    ensures Indexed(Run(g, ts))
    ensures forall k :: k in Run(g, ts).state.sent ==> Run(g, ts).state.sent[k].retryCount <= MAX_RETRIES
  {
    RunKeepsSchedule(g, ts);
    var h := Run(g, ts);
    forall k | k in h.state.sent ensures h.state.sent[k].retryCount <= MAX_RETRIES {
      assert HasLife(h, k) && Spaced(h.lives[h.index[k]]);
    }
  }

  /** What the spacing amounts to: at most two resends, the k-th later than 5000*(2^k - 1) ms
      after tracking, abandoned later than 35000 ms after. */
  ghost predicate NotBefore(l: Life) {
    && |l.resends| <= 2
    && (forall k :: 1 <= k <= |l.resends| ==> l.resends[k - 1] > l.born + BASE_TIMEOUT * (Pow2(k) - 1))
    && (l.fate.Abandoned? ==> l.fate.at > l.born + 35000)
  }

  lemma SpacedBounds(l: Life)
    requires Spaced(l)
    ensures NotBefore(l)
  {
    TimeoutsAre();
    forall k | 1 <= k <= |l.resends| ensures l.resends[k - 1] > l.born + BASE_TIMEOUT * (Pow2(k) - 1) {
      assert l.resends[0] - SentBefore(l, 0) > Timeout(0);
      if k == 2 {
        assert l.resends[1] - SentBefore(l, 1) > Timeout(1);
      }
    }
    if l.fate.Abandoned? {
      assert l.resends[0] - SentBefore(l, 0) > Timeout(0);
      assert l.resends[1] - SentBefore(l, 1) > Timeout(1);
    }
  }

  /** In every run, the clock of a packet tracked at `born` is restarted at most twice, the
      k-th time later than 5000*(2^k - 1) ms after, and it is abandoned later than 35000 ms
      after. */
  lemma BackoffLowerBounds(g: Ledger, ts: seq<Timed>, l: Life)
    requires Fresh(g) && l in Run(g, ts).lives
    ensures NotBefore(l)
  {
    RunKeepsSchedule(g, ts);
    SpacedBounds(l);
  }

  /** In every run from a ledger in order, if the last check is never more than `d` old, a
      packet is abandoned within 35000 + 3d ms, and none is tracked longer than that. */
  lemma UpperBoundsFrom(g: Ledger, ts: seq<Timed>, d: nat, l: Life)
    requires Indexed(g) && Scheduled(g) && AllPrompt(g, d)
    requires Monotone(g.now, ts) && Timely(g, ts, d) && l in Run(g, ts).lives
    ensures l.fate.Abandoned? ==> l.fate.at <= l.born + 35000 + 3 * d
    ensures l.fate.Live? && Run(g, ts).now - Run(g, ts).lastCheck <= d ==> Run(g, ts).now <= l.born + 35000 + 3 * d
  {
    RunKeepsSchedule(g, ts);
    RunStaysPrompt(g, ts, d);
    TimeoutsAre();
    assert Spaced(l) && Prompt(l, Run(g, ts).lastCheck, d);
    if |l.resends| >= 1 {
      assert l.resends[0] - SentBefore(l, 0) <= Timeout(0) + d;
    }
    if |l.resends| >= 2 {
      assert l.resends[1] - SentBefore(l, 1) <= Timeout(1) + d;
    }
  }

  /** The same from the start. */
  lemma BackoffUpperBounds(g: Ledger, ts: seq<Timed>, d: nat, l: Life)
    requires Fresh(g) && Monotone(g.now, ts) && Timely(g, ts, d) && l in Run(g, ts).lives
    ensures l.fate.Abandoned? ==> l.fate.at <= l.born + 35000 + 3 * d
    ensures l.fate.Live? && Run(g, ts).now - Run(g, ts).lastCheck <= d ==> Run(g, ts).now <= l.born + 35000 + 3 * d
  {
    UpperBoundsFrom(g, ts, d, l);
  }
}
