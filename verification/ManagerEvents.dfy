/** The calls a rover's protocol layer makes on its reliability manager, as events of a run. */
module ManagerEvents {
  import opened Wire
  import opened Codec
  import opened Reliability

  datatype Event =
    | Track(seqNo: uint8, packet: Packet, recipient: Endpoint)
    | AckFor(seqNo: uint8)
    | Heard(seqNo: uint8, sender: Endpoint)
    | NakSent(seqNo: uint8)
    | RetransmitTick
    | CleanupTick
    | ResetAll
    | StartUp
    | ShutDown

  function Apply(s: State, e: Event, now: int): State {
    match e
    case Track(k, p, r) => AddSend(s, k, p, r, now)
    case AckFor(k) => ProcessAck(s, k)
    case Heard(k, from) => RecordReceived(s, k, from, now)
    case NakSent(k) => RecordNak(s, k, now)
    case RetransmitTick => RetransmitTimer(s, now).state
    case CleanupTick => CleanupTimer(s, now)
    case ResetAll => Reset(s)
    case StartUp => Start(s, now)
    case ShutDown => Stop(s)
  }

  datatype Timed = At(now: int, event: Event)

  function Run(s: State, ts: seq<Timed>): State
    decreases |ts|
  {
    if ts == [] then s else Run(Apply(s, ts[0].event, ts[0].now), ts[1..])
  }

  lemma {:induction false} RunConcat(s: State, a: seq<Timed>, b: seq<Timed>)
    ensures Run(s, a + b) == Run(Run(s, a), b)
    decreases |a|
  {
    if a == [] {
      assert a + b == b;
    } else {
      assert (a + b)[1..] == a[1..] + b;
      RunConcat(Apply(s, a[0].event, a[0].now), a[1..], b);
    }
  }

  /** The events that empty the tables. */
  predicate Clears(s: State, e: Event) {
    e.ResetAll? || (e.StartUp? && !s.running)
  }

  /** The clock does not run backwards. */
  predicate Monotone(now: int, ts: seq<Timed>)
    decreases |ts|
  {
    ts == [] || (now <= ts[0].now && Monotone(ts[0].now, ts[1..]))
  }
}
