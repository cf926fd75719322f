/** Whole runs of the base: what it sends again when a rover asks for a number. */
module NakAnswers {
  import opened Wire
  import opened Codec
  import opened Reliability
  import opened Protocol
  import opened BaseEvents

  /** What a sequence number was used for: a packet sent to someone, or nothing that can be
      asked for again. */
  datatype Use = Sent(packet: Packet, to: Endpoint) | Spent

  /** The layer and the uses of the numbers it issued since the last reset, in order. */
  datatype Trace = Trace(proto: Proto, uses: seq<Use>)

  function UsesIn(p: Proto, t: Timed): seq<Use> {
    var effects := Apply(p, t).effects;
    if t.event.SendTo? && p.running then
      if effects != [] && effects[0].Send? then [Sent(effects[0].packet, effects[0].to)] else [Spent]
    else if t.event.Arrive? && IsData(t.event.packet) && p.sessionActive then [Spent]
    else []
  }

  function Step(j: Trace, t: Timed): Trace {
    Trace(Apply(j.proto, t).proto, if t.event.ResetAll? then [] else j.uses + UsesIn(j.proto, t))
  }

  function Run(j: Trace, ts: seq<Timed>): Trace
    decreases |ts|
  {
    if ts == [] then j else Run(Step(j, ts[0]), ts[1..])
  }

  predicate AllAllowed(ts: seq<Timed>) {
    forall i :: 0 <= i < |ts| ==> Allowed(ts[i].event)
  }

  predicate Fresh(j: Trace) {
    Started(j.proto) && j.proto.current == 0 && j.proto.rel.sent == map[] && j.uses == []
  }

  /** The number under which the n-th use was issued. */
  function Number(n: nat): uint8 {
    n % 256
  }

  lemma NumbersAdvance(n: nat)
    ensures Number(n + 1) == Next(Number(n))
  {
  }

  /** The first packet sent under `s`. */
  function FirstSent(uses: seq<Use>, s: uint8): Option<(Packet, Endpoint)> {
    if uses == [] then None
    else
      var n := |uses| - 1;
      var before := FirstSent(uses[..n], s);
      if before.Some? then before
      else if Number(n) == s && uses[n].Sent? then Some((uses[n].packet, uses[n].to))
      else None
  }

  lemma FirstSentSnoc(uses: seq<Use>, u: Use, s: uint8)
    ensures FirstSent(uses + [u], s) ==
            var before := FirstSent(uses, s);
            if before.Some? then before
            else if Number(|uses|) == s && u.Sent? then Some((u.packet, u.to))
            else None
  {
  }

  // ---------------------------------------------------------------- the invariant

  function Entry(p: Proto, s: uint8): Option<(Packet, Endpoint)> {
    if s in p.rel.sent then Some((p.rel.sent[s].packet, p.rel.sent[s].recipient)) else None
  }

  ghost predicate Faithful(j: Trace) {
    && Started(j.proto) && j.proto.current == Number(|j.uses|)
    && (forall s: uint8 :: Entry(j.proto, s) == FirstSent(j.uses, s))
    && (forall s: uint8 :: Labelled(j.proto, s))
  }

  /** The entries after a step: a packet sent under a free number is added. */
  lemma EntriesAfter(p: Proto, t: Timed, s: uint8)
    requires Started(p) && Allowed(t.event) && !t.event.ResetAll?
    ensures var used, p' := UsesIn(p, t), Apply(p, t).proto;
            && |used| <= 1
            && p'.current == (if used == [] then p.current else Next(p.current))
            && Entry(p', s) == (if Entry(p, s).Some? then Entry(p, s)
                                else if used != [] && used[0].Sent? && s == p.current
                                then Some((used[0].packet, used[0].to)) else None)
  {
  }

  /** Whether the packet kept under `s`, if any, carries the number `s`. */
  predicate Labelled(p: Proto, s: uint8) {
    s in p.rel.sent ==> p.rel.sent[s].packet.header.sequence == s
  }

  lemma KeysAreNumbers(p: Proto, t: Timed, s: uint8)
    requires Started(p) && Labelled(p, s)
    ensures Labelled(Apply(p, t).proto, s)
  {
  }

  lemma StepStaysFaithful(j: Trace, t: Timed)
    requires Faithful(j) && Allowed(t.event)
    ensures Faithful(Step(j, t))
  {
    StaysStarted(j.proto, t);
    forall s: uint8 ensures Labelled(Step(j, t).proto, s) {
      KeysAreNumbers(j.proto, t, s);
    }
    NumbersAdvance(|j.uses|);
    if !t.event.ResetAll? {
      var used := UsesIn(j.proto, t);
      forall s: uint8 ensures Entry(Step(j, t).proto, s) == FirstSent(Step(j, t).uses, s) {
        EntriesAfter(j.proto, t, s);
        if used == [] {
          assert j.uses + used == j.uses;
        } else {
          assert used == [used[0]];
          FirstSentSnoc(j.uses, used[0], s);
        }
      }
      EntriesAfter(j.proto, t, 0);
    }
  }

  lemma {:induction false} RunStaysFaithful(j: Trace, ts: seq<Timed>)
    requires Faithful(j) && AllAllowed(ts)
    ensures Faithful(Run(j, ts))
    decreases |ts|
  {
    if ts != [] {
      assert Allowed(ts[0].event);
      StepStaysFaithful(j, ts[0]);
      RunStaysFaithful(Step(j, ts[0]), ts[1..]);
    }
  }

  // ---------------------------------------------------------------- the theorems

  lemma {:induction false} FirstSentIs(uses: seq<Use>, n: nat)
    requires n < |uses|
    requires forall m :: 0 <= m < n && Number(m) == Number(n) ==> uses[m].Spent?
    requires uses[n].Sent?
    ensures FirstSent(uses, Number(n)) == Some((uses[n].packet, uses[n].to))
    decreases |uses|
  {
    var front := uses[..|uses| - 1];
    if n == |uses| - 1 {
      NoneSent(front, Number(n));
    } else {
      FirstSentIs(front, n);
    }
  }

  lemma {:induction false} NoneSent(uses: seq<Use>, s: uint8)
    requires forall m :: 0 <= m < |uses| && Number(m) == s ==> uses[m].Spent?
    ensures FirstSent(uses, s) == None
  {
    if uses != [] {
      NoneSent(uses[..|uses| - 1], s);
    }
  }

  lemma FirstOfFew(uses: seq<Use>, s: uint8)
    requires |uses| <= 256
    ensures FirstSent(uses, s) == if s < |uses| && uses[s].Sent? then Some((uses[s].packet, uses[s].to)) else None
  {
  }

  /** A packet as its sender asked for it, under the n-th number. */
  function Numbered(kind: MessageType, priority: Priority, n: nat, stamp: bv32, payload: Bytes): Packet {
    Packet(Header(kind, priority, Number(n), stamp, |payload| % 65536), payload)
  }

  /** In every run, the numbers since the last reset are issued in order, modulo 256, to what
      the application sends and to acknowledgements alike. What the application sends goes out
      once, as it asked and to the recipient it named; without a recipient nothing goes out,
      but the number is spent. A data packet in an active session is acknowledged to its
      sender. */
  lemma NumbersInOrder(j: Trace, ts: seq<Timed>, t: Timed)
    requires Fresh(j) && AllAllowed(ts)
    ensures var r := Run(j, ts);
            var e, n, effects := t.event, |r.uses|, Apply(r.proto, t).effects;
            && (e.SendTo? ==>
                  effects == if e.recipient.address == 0 then []
                             else [Send(Numbered(e.kind, e.priority, n, t.ts, e.payload), e.recipient)])
            && (e.Arrive? && IsData(e.packet) && r.proto.sessionActive ==>
                  && effects != []
                  && effects[0] == Send(Numbered(ACK, HIGH, n, t.ts, [ToByte(e.packet.header.sequence)]), e.from))
            && (e.SendTo? ==> |Step(r, t).uses| == n + 1)
  {
    RunStaysFaithful(j, ts);
    var r := Run(j, ts);
    if t.event.Arrive? && IsData(t.event.packet) {
      DataEffects(r.proto, t.event.packet, t.event.from, t.now, t.ts);
    }
  }

  /** In every run, a NAK for `s` makes the base send again the first packet it sent under
      `s` since the last reset, to that packet's recipient, and nothing if there is none. */
  lemma NakResendsFirst(j: Trace, ts: seq<Timed>, nak: Packet, from: Endpoint, now: int, stamp: bv32)
    requires Fresh(j) && AllAllowed(ts) && nak.header.kind.NAK? && |nak.payload| >= 1
    ensures var r := Run(j, ts);
            ProcessPacket(r.proto, nak, from, now, stamp).effects ==
            match FirstSent(r.uses, nak.payload[0] as int)
            case Some(again) => [Send(again.0, again.1)]
            case None => []
    ensures forall s: uint8 :: Labelled(Run(j, ts).proto, s)
  {
    RunStaysFaithful(j, ts);
    var r := Run(j, ts);
    assert Entry(r.proto, nak.payload[0] as int) == FirstSent(r.uses, nak.payload[0] as int);
  }

  /** For the first 256 numbers a started base issues: a NAK for `s` sends again exactly the
      packet sent under `s`, which carries the number `s`, to its original recipient;
      nothing for a number spent on an acknowledgement, or not issued. */
  lemma FirstNumbersAnswered(j: Trace, ts: seq<Timed>, s: uint8)
    requires Fresh(j) && AllAllowed(ts) && |Run(j, ts).uses| <= 256
    ensures var r := Run(j, ts);
            && NakAnswer(r.proto.rel, s)
               == (if s < |r.uses| && r.uses[s].Sent? then Some((r.uses[s].packet, r.uses[s].to)) else None)
            && (s < |r.uses| && r.uses[s].Sent? ==> r.uses[s].packet.header.sequence == s)
  {
    RunStaysFaithful(j, ts);
    var r := Run(j, ts);
    assert Entry(r.proto, s) == FirstSent(r.uses, s) && Labelled(r.proto, s);
    FirstOfFew(r.uses, s);
  }

  /** After 256 numbers an answer can be stale: a packet sent under a number whose earlier
      packet is still kept is never the one sent again, unless it is the same packet. */
  lemma LaterPacketShadowed(j: Trace, ts: seq<Timed>, m: nat, n: nat)
    requires Fresh(j) && AllAllowed(ts)
    requires m < n < |Run(j, ts).uses| && Number(m) == Number(n)
    requires forall i :: 0 <= i < m && Number(i) == Number(m) ==> Run(j, ts).uses[i].Spent?
    requires Run(j, ts).uses[m].Sent? && Run(j, ts).uses[n].Sent?
    ensures var r := Run(j, ts);
            NakAnswer(r.proto.rel, Number(n)) == Some((r.uses[n].packet, r.uses[n].to)) <==> r.uses[m] == r.uses[n]
  {
    RunStaysFaithful(j, ts);
    var r := Run(j, ts);
    assert Entry(r.proto, Number(n)) == FirstSent(r.uses, Number(n));
    FirstSentIs(r.uses, m);
  }

  // ---------------------------------------------------------------- a stale answer

  function Sending(payload: Bytes, to: Endpoint): Timed {
    At(0, 0, SendTo(payload, CMD, HIGH, to))
  }

  /** A first command, then `n` times another. */
  function Commands(a: Bytes, b: Bytes, to: Endpoint, n: nat): (r: seq<Timed>)
    ensures |r| == n + 1 && AllAllowed(r)
  {
    if n == 0 then [Sending(a, to)] else Commands(a, b, to, n - 1) + [Sending(b, to)]
  }

  lemma {:induction false} RunSnoc(j: Trace, ts: seq<Timed>, t: Timed)
    ensures Run(j, ts + [t]) == Step(Run(j, ts), t)
    decreases |ts|
  {
    if ts == [] {
      assert ts + [t] == [t] && [t][1..] == [];
    } else {
      assert (ts + [t])[1..] == ts[1..] + [t];
      RunSnoc(Step(j, ts[0]), ts[1..], t);
    }
  }

  lemma SendIsUsed(j: Trace, payload: Bytes, to: Endpoint)
    requires Started(j.proto) && !Unspecified(to)
    ensures var n := Step(j, Sending(payload, to));
            && Started(n.proto) && |n.uses| == |j.uses| + 1 && n.uses[..|j.uses|] == j.uses
            && n.uses[|j.uses|].Sent? && n.uses[|j.uses|].packet.payload == payload
  {
  }

  lemma {:induction false} CommandsUse(j: Trace, a: Bytes, b: Bytes, to: Endpoint, n: nat)
    requires Fresh(j) && !Unspecified(to)
    ensures var r := Run(j, Commands(a, b, to, n));
            && Started(r.proto) && |r.uses| == n + 1
            && r.uses[0].Sent? && r.uses[0].packet.payload == a
            && (n > 0 ==> r.uses[n].Sent? && r.uses[n].packet.payload == b)
  {
    if n == 0 {
      assert [] + Commands(a, b, to, 0) == Commands(a, b, to, 0);
      RunSnoc(j, [], Sending(a, to));
      SendIsUsed(j, a, to);
    } else {
      CommandsUse(j, a, b, to, n - 1);
      RunSnoc(j, Commands(a, b, to, n - 1), Sending(b, to));
      SendIsUsed(Run(j, Commands(a, b, to, n - 1)), b, to);
    }
  }

  /** A stale answer is reached: after 257 commands the number 0 stands for the last one, but
      a NAK for it is answered with the first. */
  lemma StaleIsReached(j: Trace, a: Bytes, b: Bytes, to: Endpoint)
    requires Fresh(j) && !Unspecified(to) && a != b
    ensures var r := Run(j, Commands(a, b, to, 256));
            && |r.uses| == 257 && Number(256) == 0 && r.uses[256].Sent? && r.uses[256].packet.payload == b
            && NakAnswer(r.proto.rel, 0).Some? && NakAnswer(r.proto.rel, 0).value.0.payload == a
  {
    var ts := Commands(a, b, to, 256);
    CommandsUse(j, a, b, to, 256);
    RunStaysFaithful(j, ts);
    var r := Run(j, ts);
    assert Number(0) == 0;
    FirstSentIs(r.uses, 0);
    assert Entry(r.proto, 0) == FirstSent(r.uses, 0);
  }
}
