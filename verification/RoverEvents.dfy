/** What can happen to a rover's protocol layer, as events of a run. */
module RoverEvents {
  import opened Wire
  import opened Codec
  import opened Reliability
  import opened Protocol

  datatype Event =
    | Arrive(packet: Packet, from: Endpoint)
    | SendTo(payload: Bytes, kind: MessageType, priority: Priority, recipient: Endpoint)
    | RetransmitTick
    | CleanupTick
    | ResetAll

  datatype Timed = At(now: int, ts: bv32, event: Event)

  /** Applications send commands, data, video and status, never control packets. */
  predicate Allowed(e: Event) {
    e.SendTo? ==> !Control(e.kind)
  }

  function Sends(pairs: seq<(Packet, Endpoint)>): (r: seq<Effect>)
    ensures |r| == |pairs| && forall i :: 0 <= i < |pairs| ==> r[i] == Send(pairs[i].0, pairs[i].1)
  {
    seq(|pairs|, i requires 0 <= i < |pairs| => Send(pairs[i].0, pairs[i].1))
  }

  function Apply(p: Proto, t: Timed): Outcome {
    match t.event
    case Arrive(packet, from) => ProcessPacket(p, packet, from, t.now, t.ts)
    case SendTo(payload, kind, priority, recipient) => SendMessage(p, payload, kind, priority, recipient, t.now, t.ts)
    case RetransmitTick =>
      var check := RetransmitTimer(p.rel, t.now);
      Outcome(p.(rel := check.state), Sends(check.resend))
    case CleanupTick => Outcome(p.(rel := CleanupTimer(p.rel, t.now)), [])
    case ResetAll => Outcome(ResetSequence(p), [])
  }

  /** A rover's layer after it was started. */
  predicate Started(p: Proto) {
    p.running && p.rel.running && p.rel.role == ROVER
  }

  predicate Valid(now: int, ts: seq<Timed>)
    decreases |ts|
  {
    ts == [] || (now <= ts[0].now && Allowed(ts[0].event) && Valid(ts[0].now, ts[1..]))
  }

  // ---------------------------------------------------------------- gap checks

  /** A gap check leaves everything but the number counter and the NAK table alone. */
  lemma {:induction false} AskForAllFrame(p: Proto, missing: seq<uint8>, limit: nat, now: int, ts: bv32)
    requires p.rel.role == ROVER
    ensures var r := AskForAll(p, missing, limit, now, ts);
            && r.proto == p.(current := r.proto.current, rel := p.rel.(naks := r.proto.rel.naks))
            && |r.effects| <= limit
            && forall i :: 0 <= i < |r.effects| ==> r.effects[i].Send? && r.effects[i].packet.header.kind.NAK?
    decreases |missing|
  {
    if missing != [] && limit > 0 {
      if RecentlyNaked(p.rel, missing[0], now) {
        AskForAllFrame(p, missing[1..], limit, now, ts);
      } else {
        AskForAllFrame(AskFor(p, missing[0], now, ts).proto, missing[1..], limit - 1, now, ts);
      }
    }
  }

  /** What a packet arriving at a rover does to it: an acknowledgement erases an entry, only
      NAKs are sent, and only on every fifth data packet, and exactly data is passed up, last. */
  lemma ArrivalFrame(p: Proto, packet: Packet, from: Endpoint, now: int, ts: bv32)
    requires Started(p)
    ensures var r := ProcessPacket(p, packet, from, now, ts);
            && Started(r.proto)
            && r.proto.base == p.base
            && r.proto.rel.sent == (if packet.header.kind.ACK? && |packet.payload| >= 1
                                    then p.rel.sent - {packet.payload[0] as int} else p.rel.sent)
            && (forall i :: 0 <= i < |r.effects| ==> r.effects[i].Forward? || r.effects[i].packet.header.kind.NAK?)
            && (forall i :: 0 <= i < |r.effects| && r.effects[i].Forward? ==>
                  i == |r.effects| - 1 && r.effects[i] == Forward(packet, from))
            && (IsData(packet) <==> Forward(packet, from) in r.effects)
            && (|r.effects| > 1 ==> Next(p.checkCounter) % 5 == 0)
  {
    var heard := p.(rel := RecordReceived(p.rel, packet.header.sequence, from, now));
    var counted := heard.(checkCounter := Next(p.checkCounter));
    AskForAllFrame(counted, Missing(counted.rel, from), MAX_NAKS_PER_CHECK, now, ts);
  }
}
