/** Whole runs of a rover's protocol layer: all the data packets it puts on the wire. Each is
    the first copy of a packet, or a repeat that the backoff schedule calls for. */
module LayerCopies {
  import opened Pieces
  import opened Wire
  import opened Codec
  import opened Reliability
  import opened Protocol
  import opened RoverEvents
  import L = LayerCalls
  import M = ManagerEvents
  import F = PacketFates
  import T = Transmissions

  /** Why a data packet is sent: first, with the life it gets if its number is free, or again. */
  datatype Why = First(life: Option<nat>) | Again(tag: T.Tag)

  /** The layer, the record under it, all the data it ever sent, and why each should be. */
  datatype Account = Account(proto: Proto, record: T.Record, wire: seq<T.Copy>, why: seq<Why>)

  function DataOne(x: Effect, now: int): seq<T.Copy> {
    if x.Send? && IsData(x.packet) then [T.Copy(x.packet, x.to, now)] else []
  }

  function DataIn(effects: seq<Effect>, now: int): seq<T.Copy> {
    if effects == [] then [] else DataOne(effects[0], now) + DataIn(effects[1..], now)
  }

  function Agains(tags: seq<T.Tag>): (r: seq<Why>)
    ensures |r| == |tags| && forall i :: 0 <= i < |r| ==> r[i] == Again(tags[i])
  {
    seq(|tags|, i requires 0 <= i < |tags| => Again(tags[i]))
  }

  function Free(p: Proto): bool {
    p.current !in p.rel.sent
  }

  function WhyNow(a: Account, t: Timed): seq<Why> {
    var g := a.record.ledger;
    match t.event
    case SendTo(_, _, _, _) => [First(if Free(a.proto) then Some(|g.lives|) else None)]
    case RetransmitTick => Agains(T.TagsOf(g, T.DueNow(g.state, M.At(t.now, M.RetransmitTick))))
    case _ => []
  }

  function Step(a: Account, t: Timed): Account {
    var r := Apply(a.proto, t);
    Account(r.proto, T.NoteAll(a.record, L.AllAt(t.now, L.Calls(a.proto, t))),
            a.wire + DataIn(r.effects, t.now), a.why + WhyNow(a, t))
  }

  function Run(a: Account, ts: seq<Timed>): Account
    decreases |ts|
  {
    if ts == [] then a else Run(Step(a, ts[0]), ts[1..])
  }

  predicate Fresh(a: Account) {
    Started(a.proto) && T.Empty(a.record) && a.record.ledger.state == a.proto.rel && a.wire == [] && a.why == []
  }

  // ---------------------------------------------------------------- reading the wire

  lemma {:induction false} DataInSends(pairs: seq<(Packet, Endpoint)>, now: int)
    requires forall i :: 0 <= i < |pairs| ==> IsData(pairs[i].0)
    ensures DataIn(Sends(pairs), now) == T.CopiesOf(pairs, now)
  {
    if pairs != [] {
      assert Sends(pairs)[1..] == Sends(pairs[1..]);
      DataInSends(pairs[1..], now);
      assert T.CopiesOf(pairs, now)[1..] == T.CopiesOf(pairs[1..], now);
    }
  }

  lemma {:induction false} NoDataIn(effects: seq<Effect>, now: int)
    requires forall i :: 0 <= i < |effects| ==> DataOne(effects[i], now) == []
    ensures DataIn(effects, now) == []
  {
    if effects != [] {
      NoDataIn(effects[1..], now);
    }
  }

  lemma OneDataIn(x: Effect, now: int)
    ensures DataIn([x], now) == DataOne(x, now)
  {
    assert [x][1..] == [] && DataIn([x], now) == DataOne(x, now) + [];
  }

  // ---------------------------------------------------------------- why each is sent

  function TagIn(w: Why): seq<T.Tag> {
    if w.Again? then [w.tag] else []
  }

  /** The repeats, in order. */
  function Tags(why: seq<Why>): seq<T.Tag> {
    if why == [] then [] else TagIn(why[0]) + Tags(why[1..])
  }

  function LifeIn(w: Why): seq<nat> {
    if w.First? && w.life.Some? then [w.life.value] else []
  }

  /** The packets that got a life, in order. */
  function Lives(why: seq<Why>): seq<nat> {
    if why == [] then [] else LifeIn(why[0]) + Lives(why[1..])
  }

  function Upto(n: nat): (r: seq<nat>)
    ensures |r| == n && forall i :: 0 <= i < n ==> r[i] == i
  {
    seq(n, i => i)
  }

  lemma {:induction false} WhyConcat(a: seq<Why>, b: seq<Why>)
    ensures Tags(a + b) == Tags(a) + Tags(b) && Lives(a + b) == Lives(a) + Lives(b)
  {
    if a == [] {
      assert a + b == b;
    } else {
      assert (a + b)[1..] == a[1..] + b;
      WhyConcat(a[1..], b);
      Associate(TagIn(a[0]), Tags(a[1..]), Tags(b));
      Associate(LifeIn(a[0]), Lives(a[1..]), Lives(b));
    }
  }

  lemma {:induction false} AgainsAre(tags: seq<T.Tag>)
    ensures Tags(Agains(tags)) == tags && Lives(Agains(tags)) == []
  {
    if tags != [] {
      assert Agains(tags)[1..] == Agains(tags[1..]);
      AgainsAre(tags[1..]);
    }
  }

  predicate Explains(lives: seq<F.Life>, w: Why, c: T.Copy) {
    match w
    case First(None) => true
    case First(Some(i)) => i < |lives| && c == T.Copy(lives[i].packet, lives[i].recipient, lives[i].born)
    case Again(tag) => T.IsCopy(lives, tag, c)
  }

  ghost predicate AllExplained(lives: seq<F.Life>, wire: seq<T.Copy>, why: seq<Why>) {
    |wire| == |why| && forall i :: 0 <= i < |why| ==> Explains(lives, why[i], wire[i])
  }

  lemma ExplainedConcat(lives: seq<F.Life>, lives': seq<F.Life>, wire: seq<T.Copy>, why: seq<Why>,
                        more: seq<T.Copy>, because: seq<Why>)
    requires T.AllGrow(lives, lives') && AllExplained(lives, wire, why) && AllExplained(lives', more, because)
    ensures AllExplained(lives', wire + more, why + because)
  {
    forall i | 0 <= i < |why + because| ensures Explains(lives', (why + because)[i], (wire + more)[i]) {
      if i < |why| {
        assert Explains(lives, why[i], wire[i]);
      } else {
        assert Explains(lives', because[i - |why|], more[i - |why|]);
      }
    }
  }

  // ---------------------------------------------------------------- one event

  ghost predicate Exact(a: Account) {
    && Started(a.proto) && KeepsData(a.proto) && a.record.ledger.state == a.proto.rel && T.Faithful(a.record)
    && AllExplained(a.record.ledger.lives, a.wire, a.why)
    && Tags(a.why) == a.record.due && Lives(a.why) == Upto(|a.record.ledger.lives|)
  }

  /** The data sent, and why, between two records. */
  ghost predicate Added(c: T.Record, n: T.Record, more: seq<T.Copy>, because: seq<Why>) {
    && T.AllGrow(c.ledger.lives, n.ledger.lives)
    && AllExplained(n.ledger.lives, more, because)
    && n.due == c.due + Tags(because)
    && Upto(|n.ledger.lives|) == Upto(|c.ledger.lives|) + Lives(because)
  }

  /** What an event adds. */
  ghost predicate Adds(a: Account, t: Timed) {
    Added(a.record, T.NoteAll(a.record, L.AllAt(t.now, L.Calls(a.proto, t))),
          DataIn(Apply(a.proto, t).effects, t.now), WhyNow(a, t))
  }

  lemma NothingAdded(c: T.Record, n: T.Record)
    requires n.due == c.due && |n.ledger.lives| == |c.ledger.lives| && T.AllGrow(c.ledger.lives, n.ledger.lives)
    ensures Added(c, n, [], [])
  {
    assert c.due + [] == c.due && Upto(|c.ledger.lives|) + [] == Upto(|c.ledger.lives|);
  }

  /** Calls that neither track nor check. */
  ghost predicate Plain(es: seq<M.Event>) {
    forall i :: 0 <= i < |es| ==> !es[i].Track? && !es[i].RetransmitTick?
  }

  lemma PlainNote(c: T.Record, t: M.Timed)
    requires !t.event.Track? && !t.event.RetransmitTick?
    ensures var n := T.Note(c, t);
            n.due == c.due && |n.ledger.lives| == |c.ledger.lives| && T.AllGrow(c.ledger.lives, n.ledger.lives)
  {
    T.StepGrows(c.ledger, t);
    assert c.due + [] == c.due;
  }

  lemma GrowsOn(a: seq<F.Life>, b: seq<F.Life>, c: seq<F.Life>)
    requires T.AllGrow(a, b) && T.AllGrow(b, c)
    ensures T.AllGrow(a, c)
  {
    forall i | 0 <= i < |a| ensures T.Grows(a[i], c[i]) {
      assert T.Grows(a[i], b[i]) && T.Grows(b[i], c[i]);
    }
  }

  lemma {:induction false} PlainNotes(c: T.Record, es: seq<M.Event>, now: int)
    requires Plain(es)
    ensures var n := T.NoteAll(c, L.AllAt(now, es));
            n.due == c.due && |n.ledger.lives| == |c.ledger.lives| && T.AllGrow(c.ledger.lives, n.ledger.lives)
    decreases |es|
  {
    if es != [] {
      var first := T.Note(c, M.At(now, es[0]));
      assert L.AllAt(now, es)[1..] == L.AllAt(now, es[1..]);
      PlainNote(c, M.At(now, es[0]));
      PlainNotes(first, es[1..], now);
      GrowsOn(c.ledger.lives, first.ledger.lives, T.NoteAll(first, L.AllAt(now, es[1..])).ledger.lives);
    }
  }

  lemma {:induction false} NakCallsPlain(effects: seq<Effect>)
    ensures Plain(L.NakCalls(effects))
  {
    if effects != [] {
      NakCallsPlain(effects[1..]);
    }
  }

  lemma PlainEvent(a: Account, t: Timed)
    requires Started(a.proto) && !t.event.SendTo? && !t.event.RetransmitTick?
    ensures Adds(a, t)
  {
    var effects := Apply(a.proto, t).effects;
    if t.event.Arrive? {
      ArrivalFrame(a.proto, t.event.packet, t.event.from, t.now, t.ts);
      NakCallsPlain(effects);
    }
    NoDataIn(effects, t.now);
    PlainNotes(a.record, L.Calls(a.proto, t), t.now);
    NothingAdded(a.record, T.NoteAll(a.record, L.AllAt(t.now, L.Calls(a.proto, t))));
  }

  lemma OneNote(c: T.Record, e: M.Event, now: int)
    ensures T.NoteAll(c, L.AllAt(now, [e])) == T.Note(c, M.At(now, e))
  {
    assert L.AllAt(now, [e])[0] == M.At(now, e) && L.AllAt(now, [e])[1..] == [];
  }

  lemma TickWire(p: Proto, t: Timed)
    requires Started(p) && KeepsData(p) && t.event.RetransmitTick?
    ensures DataIn(Apply(p, t).effects, t.now)
         == T.CopiesOf(T.Output(p.rel, M.At(t.now, M.RetransmitTick)).resend, t.now)
  {
    T.OutputExact(p.rel, M.At(t.now, M.RetransmitTick));
    DataInSends(RetransmitTimer(p.rel, t.now).resend, t.now);
  }

  lemma TickAdds(c: T.Record, t: M.Timed)
    requires F.Indexed(c.ledger) && t.event.RetransmitTick?
    ensures var g := c.ledger;
            Added(c, T.Note(c, t), T.CopiesOf(T.Output(g.state, t).resend, t.now),
                  Agains(T.TagsOf(g, T.DueNow(g.state, t))))
  {
    var g := c.ledger;
    var copies, tags := T.CopiesOf(T.Output(g.state, t).resend, t.now), T.TagsOf(g, T.DueNow(g.state, t));
    T.StepGrows(g, t);
    T.NewCopies(g, t);
    AgainsAre(tags);
    ExplainAgains(F.Step(g, t).lives, copies, tags);
    assert Upto(|g.lives|) + [] == Upto(|g.lives|);
  }

  lemma ExplainAgains(lives: seq<F.Life>, copies: seq<T.Copy>, tags: seq<T.Tag>)
    requires T.AllCopies(lives, copies, tags)
    ensures AllExplained(lives, copies, Agains(tags))
  {
  }

  lemma TickEvent(a: Account, t: Timed)
    requires Started(a.proto) && KeepsData(a.proto) && a.record.ledger.state == a.proto.rel
    requires F.Indexed(a.record.ledger) && t.event.RetransmitTick?
    ensures Adds(a, t)
  {
    TickWire(a.proto, t);
    OneNote(a.record, M.RetransmitTick, t.now);
    TickAdds(a.record, M.At(t.now, M.RetransmitTick));
  }

  lemma SendWire(p: Proto, t: Timed)
    requires Started(p) && t.event.SendTo? && Allowed(t.event)
    ensures var x, to := Sent(p, t), if Unspecified(t.event.recipient) then p.base else t.event.recipient;
            && DataIn(Apply(p, t).effects, t.now) == [T.Copy(x, to, t.now)]
            && L.Calls(p, t) == [M.Track(p.current, x, to)]
  {
    OneDataIn(Apply(p, t).effects[0], t.now);
    assert Apply(p, t).effects == [Apply(p, t).effects[0]];
  }

  /** The packet that a send makes. */
  function Sent(p: Proto, t: Timed): Packet
    requires t.event.SendTo?
  {
    NewPacket(t.event.kind, t.event.priority, p.current, t.ts, t.event.payload)
  }

  lemma TrackNote(c: T.Record, k: uint8, x: Packet, to: Endpoint, now: int)
    requires c.ledger.state.running
    ensures var n := T.Note(c, M.At(now, M.Track(k, x, to)));
            && n.due == c.due && T.AllGrow(c.ledger.lives, n.ledger.lives)
            && (k in c.ledger.state.sent ==> |n.ledger.lives| == |c.ledger.lives|)
            && (k !in c.ledger.state.sent ==>
                  && |n.ledger.lives| == |c.ledger.lives| + 1
                  && n.ledger.lives[|c.ledger.lives|] == F.Life(k, x, to, now, [], F.Live))
  {
    T.StepGrows(c.ledger, M.At(now, M.Track(k, x, to)));
    assert c.due + [] == c.due;
  }

  lemma OneWhy(w: Why)
    ensures Tags([w]) == TagIn(w) && Lives([w]) == LifeIn(w)
  {
    assert [w][1..] == [] && TagIn(w) + [] == TagIn(w) && LifeIn(w) + [] == LifeIn(w);
  }

  lemma TrackAdds(c: T.Record, k: uint8, x: Packet, to: Endpoint, now: int)
    requires c.ledger.state.running
    ensures Added(c, T.Note(c, M.At(now, M.Track(k, x, to))), [T.Copy(x, to, now)],
                  [First(if k !in c.ledger.state.sent then Some(|c.ledger.lives|) else None)])
  {
    var n, w := |c.ledger.lives|, First(if k !in c.ledger.state.sent then Some(|c.ledger.lives|) else None);
    TrackNote(c, k, x, to, now);
    OneWhy(w);
    assert c.due + [] == c.due && Upto(n) + [] == Upto(n) && Upto(n + 1) == Upto(n) + [n];
  }

  lemma SendEvent(a: Account, t: Timed)
    requires Started(a.proto) && a.record.ledger.state == a.proto.rel && t.event.SendTo? && Allowed(t.event)
    ensures Adds(a, t)
  {
    var p := a.proto;
    var x, to := Sent(p, t), if Unspecified(t.event.recipient) then p.base else t.event.recipient;
    SendWire(p, t);
    OneNote(a.record, M.Track(p.current, x, to), t.now);
    TrackAdds(a.record, p.current, x, to, t.now);
  }

  lemma ArrivalKeepsData(p: Proto, packet: Packet, from: Endpoint, now: int, ts: bv32)
    requires Started(p) && KeepsData(p)
    ensures KeepsData(ProcessPacket(p, packet, from, now, ts).proto)
  {
    ArrivalFrame(p, packet, from, now, ts);
  }

  lemma TickKeepsData(p: Proto, now: int)
    requires KeepsData(p)
    ensures KeepsData(p.(rel := RetransmitTimer(p.rel, now).state))
  {
  }

  lemma SendKeepsData(p: Proto, payload: Bytes, kind: MessageType, priority: Priority, recipient: Endpoint,
                      now: int, ts: bv32)
    requires KeepsData(p) && !Control(kind)
    ensures KeepsData(SendMessage(p, payload, kind, priority, recipient, now, ts).proto)
  {
    assert IsData(NewPacket(kind, priority, p.current, ts, payload));
  }

  lemma DataStays(p: Proto, t: Timed)
    requires Started(p) && KeepsData(p) && Allowed(t.event)
    ensures KeepsData(Apply(p, t).proto)
  {
    match t.event
    case Arrive(packet, from) => ArrivalKeepsData(p, packet, from, t.now, t.ts);
    case SendTo(payload, kind, priority, to) => SendKeepsData(p, payload, kind, priority, to, t.now, t.ts);
    case RetransmitTick => TickKeepsData(p, t.now);
    case CleanupTick =>
    case ResetAll =>
  }

  lemma EventAdds(a: Account, t: Timed)
    requires Exact(a) && Allowed(t.event)
    ensures Adds(a, t)
  {
    if t.event.SendTo? {
      SendEvent(a, t);
    } else if t.event.RetransmitTick? {
      TickEvent(a, t);
    } else {
      PlainEvent(a, t);
    }
  }

  /** The record stays beside the layer. */
  lemma RecordFollows(a: Account, t: Timed)
    requires Exact(a) && Allowed(t.event)
    ensures var n := Step(a, t);
            Started(n.proto) && KeepsData(n.proto) && n.record.ledger.state == n.proto.rel && T.Faithful(n.record)
  {
    var calls := L.AllAt(t.now, L.Calls(a.proto, t));
    L.StaysStarted(a.proto, t);
    DataStays(a.proto, t);
    L.LayerDrivesManager(a.proto, t);
    L.CallsAreRun(a.proto.rel, L.Calls(a.proto, t), t.now);
    T.LedgerFollows(a.record, calls);
    F.StateFollows(a.record.ledger, calls);
    T.NotesStayFaithful(a.record, calls);
  }

  lemma StepStaysExact(a: Account, t: Timed)
    requires Exact(a) && Allowed(t.event)
    ensures Exact(Step(a, t))
  {
    RecordFollows(a, t);
    EventAdds(a, t);
    var n := Step(a, t);
    ExplainedConcat(a.record.ledger.lives, n.record.ledger.lives, a.wire, a.why,
                    DataIn(Apply(a.proto, t).effects, t.now), WhyNow(a, t));
    WhyConcat(a.why, WhyNow(a, t));
  }

  lemma {:induction false} RunStaysExact(a: Account, ts: seq<Timed>)
    requires Exact(a) && forall i :: 0 <= i < |ts| ==> Allowed(ts[i].event)
    ensures Exact(Run(a, ts))
    decreases |ts|
  {
    if ts != [] {
      assert Allowed(ts[0].event);
      StepStaysExact(a, ts[0]);
      RunStaysExact(Step(a, ts[0]), ts[1..]);
    }
  }

  // ---------------------------------------------------------------- the theorems

  /** In every run, all the data the layer ever puts on the wire is, packet by packet: the
      first copy of each packet that got a life, when it was tracked, once each; every repeat
      of those, at its time and to its recipient, once each; and one copy of each packet sent
      under a number still taken. A packet is repeated at most twice, the k-th time later than
      5000*(2^k - 1) ms after the first copy. */
  lemma WireIsExact(a: Account, ts: seq<Timed>)
    requires Fresh(a) && forall i :: 0 <= i < |ts| ==> Allowed(ts[i].event)
    ensures var r := Run(a, ts);
            var lives := r.record.ledger.lives;
            && r.record.ledger.state == r.proto.rel && F.Indexed(r.record.ledger)
            && AllExplained(lives, r.wire, r.why)
            && Lives(r.why) == Upto(|lives|)
            && T.NoRepeats(Tags(r.why)) && T.AllRepeated(lives, Tags(r.why))
            && forall l :: l in lives ==> F.NotBefore(l)
  {
    RunStaysExact(a, ts);
    forall l | l in Run(a, ts).record.ledger.lives ensures F.NotBefore(l) {
      F.SpacedBounds(l);
    }
  }

  lemma TakenStays(p: Proto, t: Timed)
    requires Started(p) && t.event.SendTo? && !Free(p)
    ensures Apply(p, t).proto.rel.sent == p.rel.sent
  {
  }

  /** A data packet sent gets a life if and only if its number is free; otherwise the table
      stays as it is, so that nothing will send, abandon or report the packet. */
  lemma LifeIffFree(a: Account, ts: seq<Timed>, t: Timed)
    requires Fresh(a) && forall i :: 0 <= i < |ts| ==> Allowed(ts[i].event)
    requires t.event.SendTo? && Allowed(t.event)
    ensures var r := Run(a, ts);
            var n, lives, to := Step(r, t), r.record.ledger.lives,
                                if Unspecified(t.event.recipient) then r.proto.base else t.event.recipient;
            && n.wire == r.wire + [T.Copy(Sent(r.proto, t), to, t.now)]
            && (if Free(r.proto)
                then |n.record.ledger.lives| == |lives| + 1
                     && n.record.ledger.lives[|lives|]
                        == F.Life(r.proto.current, Sent(r.proto, t), to, t.now, [], F.Live)
                else |n.record.ledger.lives| == |lives| && n.proto.rel.sent == r.proto.rel.sent)
  {
    RunStaysExact(a, ts);
    var r := Run(a, ts);
    var to := if Unspecified(t.event.recipient) then r.proto.base else t.event.recipient;
    SendWire(r.proto, t);
    OneNote(r.record, M.Track(r.proto.current, Sent(r.proto, t), to), t.now);
    TrackNote(r.record, r.proto.current, Sent(r.proto, t), to, t.now);
    if !Free(r.proto) {
      TakenStays(r.proto, t);
    }
  }

  // ---------------------------------------------------------------- a number still taken

  function Sending(payload: Bytes): Timed {
    At(0, 0, SendTo(payload, DATA, MEDIUM, UNSPECIFIED))
  }

  function Sendings(payload: Bytes, n: nat): (r: seq<Timed>)
    ensures |r| == n && forall i :: 0 <= i < n ==> r[i] == Sending(payload)
  {
    seq(n, _ => Sending(payload))
  }

  lemma SendTakes(p: Proto, payload: Bytes)
    requires Started(p)
    ensures var q := Apply(p, Sending(payload)).proto;
            Started(q) && q.current == Next(p.current) && q.rel.sent.Keys == p.rel.sent.Keys + {p.current}
  {
  }

  /** The numbers below `m` are taken, and the next is `m` modulo 256. */
  ghost predicate Taken(p: Proto, m: nat) {
    Started(p) && p.current == m % 256 && forall k: uint8 :: k in p.rel.sent.Keys <==> k < m
  }

  lemma OneMoreTaken(p: Proto, payload: Bytes, m: nat)
    requires Taken(p, m) && m < 256
    ensures Taken(Apply(p, Sending(payload)).proto, m + 1)
  {
    SendTakes(p, payload);
  }

  lemma {:induction false} SendsTake(p: Proto, payload: Bytes, m: nat, n: nat)
    requires Taken(p, m) && m + n <= 256
    ensures Taken(L.RunLayer(p, Sendings(payload, n)), m + n)
    decreases n
  {
    if n > 0 {
      assert Sendings(payload, n)[1..] == Sendings(payload, n - 1);
      OneMoreTaken(p, payload, m);
      SendsTake(Apply(p, Sending(payload)).proto, payload, m + 1, n - 1);
    }
  }

  lemma {:induction false} ProtoFollows(a: Account, ts: seq<Timed>)
    ensures Run(a, ts).proto == L.RunLayer(a.proto, ts)
    decreases |ts|
  {
    if ts != [] {
      ProtoFollows(Step(a, ts[0]), ts[1..]);
    }
  }

  /** Such a number is reached: after 256 packets without an acknowledgement the next one is
      sent, but not tracked. */
  lemma TakenIsReached(a: Account, payload: Bytes)
    requires Fresh(a) && a.proto.current == 0
    ensures !Free(Run(a, Sendings(payload, 256)).proto)
  {
    ProtoFollows(a, Sendings(payload, 256));
    SendsTake(a.proto, payload, 0, 256);
  }
}
