/** Whole runs of the base: how long it remembers what it acknowledged. */
module AckExpiry {
  import opened Wire
  import opened Codec
  import opened Reliability
  import opened Protocol
  import opened BaseEvents

  /** The layer; the time of its last cleanup; when the acknowledged set was last emptied, or
      the record began; and when each number was last acknowledged to each endpoint, by the
      ACKs put on the wire. */
  datatype Record = Record(proto: Proto, now: int, cleaned: int, emptied: int, acks: map<(Endpoint, uint8), int>)

  function NoteAck(acks: map<(Endpoint, uint8), int>, x: Effect, now: int): map<(Endpoint, uint8), int> {
    if x.Send? && x.packet.header.kind.ACK? && |x.packet.payload| >= 1
    then acks[(x.to, x.packet.payload[0] as int) := now] else acks
  }

  function NoteAcks(acks: map<(Endpoint, uint8), int>, effects: seq<Effect>, now: int): map<(Endpoint, uint8), int>
    decreases |effects|
  {
    if effects == [] then acks else NoteAcks(NoteAck(acks, effects[0], now), effects[1..], now)
  }

  /** Nothing is acknowledged any more. */
  predicate Empty(p: Proto) {
    p.rel.acked == map[]
  }

  function Step(r: Record, t: Timed): Record {
    var n := Apply(r.proto, t);
    Record(n.proto, t.now, if t.event.CleanupTick? then t.now else r.cleaned,
           if Empty(n.proto) then t.now else r.emptied, NoteAcks(r.acks, n.effects, t.now))
  }

  function Run(r: Record, ts: seq<Timed>): Record
    decreases |ts|
  {
    if ts == [] then r else Run(Step(r, ts[0]), ts[1..])
  }

  /** A record that begins when the layer has started, which includes a cleanup. */
  predicate Fresh(r: Record) {
    && Started(r.proto) && r.proto.rel.acked == map[] && r.proto.rel.sent == map[]
    && r.cleaned == r.now && r.emptied == r.now && r.acks == map[] && r.proto.rel.lastAckCleanup <= r.now
  }

  // ---------------------------------------------------------------- the invariant

  /** What is still acknowledged was acknowledged on the wire since the set was last empty. */
  ghost predicate OnRecord(r: Record) {
    forall k: uint8, e ::
      HasAcked(r.proto.rel, k, e) ==> (e, k) in r.acks && r.emptied <= r.acks[(e, k)]
  }

  ghost predicate Sound(r: Record) {
    && Started(r.proto) && KeepsData(r.proto) && OnRecord(r)
    && r.emptied <= r.now && r.proto.rel.lastAckCleanup <= r.emptied && r.cleaned <= r.emptied + 10000
  }

  lemma NotedTwo(acks: map<(Endpoint, uint8), int>, a: seq<Effect>, b: seq<Effect>, now: int)
    requires |a| <= 1 && |b| <= 1
    ensures var noted := if a == [] then acks else NoteAck(acks, a[0], now);
            NoteAcks(acks, a + b, now) == if b == [] then noted else NoteAck(noted, b[0], now)
  {
    var noted := if a == [] then acks else NoteAck(acks, a[0], now);
    if b != [] {
      assert b[1..] == [] && NoteAcks(noted, b, now) == NoteAcks(NoteAck(noted, b[0], now), [], now);
    }
    if a == [] {
      assert a + b == b;
    } else {
      assert (a + b)[1..] == b && (a + b)[0] == a[0];
    }
  }

  /** What a data packet adds to the record. */
  lemma DataNotes(r: Record, t: Timed)
    requires Started(r.proto) && t.event.Arrive? && IsData(t.event.packet)
    ensures var p, s, from := r.proto, t.event.packet.header.sequence, t.event.from;
            && Step(r, t).acks == (if p.sessionActive then r.acks[(from, s) := t.now] else r.acks)
            && (forall k, e :: HasAcked(Step(r, t).proto.rel, k, e) ==>
                  HasAcked(p.rel, k, e) || (p.sessionActive && k == s && e == from))
  {
    var p, s, from := r.proto, t.event.packet.header.sequence, t.event.from;
    DataEffects(p, t.event.packet, from, t.now, t.ts);
    StaysStarted(p, t);
    NotedTwo(r.acks, if p.sessionActive then [Send(NewPacket(ACK, HIGH, p.current, t.ts, [ToByte(s)]), from)] else [],
             if HasAcked(p.rel, s, from) then [] else [Forward(t.event.packet, from)], t.now);
  }

  lemma OthersNote(r: Record, t: Timed)
    requires Started(r.proto) && KeepsData(r.proto) && Allowed(t.event)
    requires !(t.event.Arrive? && IsData(t.event.packet))
    ensures Step(r, t).acks == r.acks
  {
    OtherEffects(r.proto, t);
    var effects := Apply(r.proto, t).effects;
    NotedTwo(r.acks, effects, [], t.now);
    assert effects + [] == effects;
  }

  lemma DataStaysSound(r: Record, t: Timed)
    requires Sound(r) && r.now <= t.now && t.event.Arrive? && IsData(t.event.packet)
    ensures Sound(Step(r, t))
  {
    StaysStarted(r.proto, t);
    DataEffects(r.proto, t.event.packet, t.event.from, t.now, t.ts);
    DataNotes(r, t);
  }

  lemma OthersStaySound(r: Record, t: Timed)
    requires Sound(r) && r.now <= t.now && Allowed(t.event) && !(t.event.Arrive? && IsData(t.event.packet))
    ensures Sound(Step(r, t))
  {
    StaysStarted(r.proto, t);
    OtherEffects(r.proto, t);
    OthersNote(r, t);
    var n := Step(r, t);
    if Empty(n.proto) {
      assert forall k, e :: !HasAcked(n.proto.rel, k, e);
    } else {
      assert n.proto.rel.acked == r.proto.rel.acked;
    }
  }

  lemma {:induction false} RunStaysSound(r: Record, ts: seq<Timed>)
    requires Sound(r) && Valid(r.now, ts)
    ensures Sound(Run(r, ts))
    decreases |ts|
  {
    if ts != [] {
      if ts[0].event.Arrive? && IsData(ts[0].event.packet) {
        DataStaysSound(r, ts[0]);
      } else {
        OthersStaySound(r, ts[0]);
      }
      RunStaysSound(Step(r, ts[0]), ts[1..]);
    }
  }

  // ---------------------------------------------------------------- the theorems

  /** In every run, resets and session changes included: a cleanup comes at most 10000 ms after
      the acknowledged set was last empty, or empties it; so if the last cleanup is at most `d`
      old, the set was empty within the last 10000 + d ms. */
  lemma EmptiedInTime(r: Record, ts: seq<Timed>, now: int, d: nat)
    requires Fresh(r) && Valid(r.now, ts) && now - Run(r, ts).cleaned <= d
    ensures now - Run(r, ts).emptied <= 10000 + d
  {
    RunStaysSound(r, ts);
  }

  /** In every run, if the last cleanup is at most `d` old, a data packet that arrives more than
      10000 + d ms after the last ACK of its number to its sender is passed up, and so is one
      whose number was never acknowledged to its sender. */
  lemma ForgottenInTime(r: Record, ts: seq<Timed>, t: Timed, d: nat)
    requires Fresh(r) && Valid(r.now, ts) && t.now - Run(r, ts).cleaned <= d
    requires t.event.Arrive? && IsData(t.event.packet)
    requires var acks, pair := Run(r, ts).acks, (t.event.from, t.event.packet.header.sequence);
             pair in acks ==> t.now > acks[pair] + 10000 + d
    ensures Forward(t.event.packet, t.event.from) in Apply(Run(r, ts).proto, t).effects
  {
    RunStaysSound(r, ts);
    DataEffects(Run(r, ts).proto, t.event.packet, t.event.from, t.now, t.ts);
  }
}
