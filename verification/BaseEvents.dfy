/** What can happen to the base station's protocol layer, as events of a run. */
module BaseEvents {
  import opened Wire
  import opened Codec
  import opened Reliability
  import opened Protocol

  datatype Event =
    | Arrive(packet: Packet, from: Endpoint)
    | SendTo(payload: Bytes, kind: MessageType, priority: Priority, recipient: Endpoint)
    | SetActive(active: bool)
    | CleanupTick
    | ResetAll

  datatype Timed = At(now: int, ts: bv32, event: Event)

  /** Applications send commands, data, video and status, never control packets. */
  predicate Allowed(e: Event) {
    e.SendTo? ==> !Control(e.kind)
  }

  function Apply(p: Proto, t: Timed): Outcome {
    match t.event
    case Arrive(packet, from) => ProcessPacket(p, packet, from, t.now, t.ts)
    case SendTo(payload, kind, priority, recipient) => SendMessage(p, payload, kind, priority, recipient, t.now, t.ts)
    case SetActive(active) => Outcome(p.(sessionActive := active), [])
    case CleanupTick => Outcome(p.(rel := CleanupTimer(p.rel, t.now)), [])
    case ResetAll => Outcome(ResetSequence(p), [])
  }

  predicate Valid(now: int, ts: seq<Timed>)
    decreases |ts|
  {
    ts == [] || (now <= ts[0].now && Allowed(ts[0].event) && Valid(ts[0].now, ts[1..]))
  }

  /** A base station's layer after it was started. */
  predicate Started(p: Proto) {
    p.running && p.rel.running && p.rel.role == BASE_STATION
  }

  lemma StaysStarted(p: Proto, t: Timed)
    requires Started(p)
    ensures Started(Apply(p, t).proto)
  {
  }

  /** The acknowledged set is emptied by a reset, and by a cleanup that ends an epoch. */
  predicate EndsEpoch(p: Proto, t: Timed) {
    t.event.ResetAll? || (t.event.CleanupTick? && p.rel.running && AckEpochEnds(p.rel, t.now))
  }

  /** The effects of a data packet at the base. */
  lemma DataEffects(p: Proto, packet: Packet, from: Endpoint, now: int, ts: bv32)
    requires Started(p) && IsData(packet)
    ensures var s, r := packet.header.sequence, ProcessPacket(p, packet, from, now, ts);
            && r.effects == (if p.sessionActive
                             then [Send(NewPacket(ACK, HIGH, p.current, ts, [ToByte(s)]), from)] else [])
                            + (if HasAcked(p.rel, s, from) then [] else [Forward(packet, from)])
            && r.proto.rel.acked == (if p.sessionActive then RecordAcked(p.rel, s, from).acked else p.rel.acked)
            && r.proto.rel.sent == p.rel.sent && r.proto.rel.lastAckCleanup == p.rel.lastAckCleanup
  {
  }

  /** Every other event forwards and acknowledges nothing. */
  lemma OtherEffects(p: Proto, t: Timed)
    requires Started(p) && KeepsData(p) && Allowed(t.event)
    requires !(t.event.Arrive? && IsData(t.event.packet))
    ensures var r := Apply(p, t);
            && (r.effects == [] || exists packet, to :: r.effects == [Send(packet, to)] && IsData(packet))
            && r.proto.rel.acked == (if EndsEpoch(p, t) then map[] else p.rel.acked)
            && r.proto.rel.lastAckCleanup
               == (if EndsEpoch(p, t) && t.event.CleanupTick? then t.now else p.rel.lastAckCleanup)
            && KeepsData(r.proto)
  {
    if t.event.SendTo? {
      assert IsData(NewPacket(t.event.kind, t.event.priority, p.current, t.ts, t.event.payload));
    }
  }
}
