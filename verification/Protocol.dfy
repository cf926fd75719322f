/** The protocol layer (src/common/lumen_protocol.cpp): numbering, acknowledgement, NAKs and
    forwarding. Every method of the class is proved equal to a function on values. */
module Protocol {
  import opened Pieces
  import opened Wire
  import opened Codec
  import opened FrameBuffer
  import opened Reliability

  datatype Proto = Proto(rel: State, running: bool, current: uint8, sessionActive: bool,
                         checkCounter: uint8, base: Endpoint)

  /** What the layer does to the outside: send a packet, or pass one up. */
  datatype Effect = Send(packet: Packet, to: Endpoint) | Forward(packet: Packet, from: Endpoint)

  datatype Outcome = Outcome(proto: Proto, effects: seq<Effect>)

  predicate IsBase(p: Proto) {
    p.rel.role == BASE_STATION
  }

  predicate Unspecified(e: Endpoint) {
    e.address == 0
  }

  function NewPacket(kind: MessageType, priority: Priority, seqNo: uint8, timestamp: bv32, payload: Bytes): Packet {
    MakePacket(Header(kind, priority, seqNo, timestamp, |payload| % 65536), payload)
  }

  predicate Control(kind: MessageType) {
    kind.ACK? || kind.NAK?
  }

  predicate IsData(packet: Packet) {
    !Control(packet.header.kind)
  }

  /** The tracked packets are data packets, so sending one again never sends an ACK or a NAK. */
  ghost predicate KeepsData(p: Proto) {
    forall k :: k in p.rel.sent ==> IsData(p.rel.sent[k].packet)
  }

  // ---------------------------------------------------------------- sending

  function SendMessage(p: Proto, payload: Bytes, kind: MessageType, priority: Priority, recipient: Endpoint,
                       now: int, ts: bv32): Outcome {
    if !p.running then Outcome(p, [])
    else
      var packet := NewPacket(kind, priority, p.current, ts, payload);
      var advanced := p.(current := Next(p.current));
      if IsBase(p) && Unspecified(recipient) then Outcome(advanced, [])
      else
        var target := if Unspecified(recipient) then p.base else recipient;
        var rel := if Control(kind) then p.rel else AddSend(p.rel, p.current, packet, target, now);
        Outcome(advanced.(rel := rel), [Send(packet, target)])
  }

  function AckPacket(p: Proto, acked: uint8, ts: bv32): Packet {
    NewPacket(ACK, HIGH, p.current, ts, [ToByte(acked)])
  }

  function SendAck(p: Proto, acked: uint8, recipient: Endpoint, ts: bv32): Outcome {
    if !IsBase(p) then Outcome(p, [])
    else Outcome(p.(rel := RecordAcked(p.rel, acked, recipient), current := Next(p.current)),
                 [Send(AckPacket(p, acked, ts), recipient)])
  }

  function SendNak(p: Proto, missing: uint8, ts: bv32): Outcome {
    if IsBase(p) then Outcome(p, [])
    else Outcome(p.(current := Next(p.current)),
                 [Send(NewPacket(NAK, HIGH, p.current, ts, [ToByte(missing)]), p.base)])
  }

  // ---------------------------------------------------------------- gap checks

  /** Asks for one number and records that. */
  function AskFor(p: Proto, seqNo: uint8, now: int, ts: bv32): Outcome {
    var sent := SendNak(p, seqNo, ts);
    Outcome(sent.proto.(rel := RecordNak(sent.proto.rel, seqNo, now)), sent.effects)
  }

  /** Asks for the missing numbers not recently asked for, at most `limit` of them. */
  function AskForAll(p: Proto, missing: seq<uint8>, limit: nat, now: int, ts: bv32): Outcome
    decreases |missing|
  {
    if missing == [] || limit == 0 then Outcome(p, [])
    else if RecentlyNaked(p.rel, missing[0], now) then AskForAll(p, missing[1..], limit, now, ts)
    else
      var first := AskFor(p, missing[0], now, ts);
      var rest := AskForAll(first.proto, missing[1..], limit - 1, now, ts);
      Outcome(rest.proto, first.effects + rest.effects)
  }

  lemma AskForAllTurn(p: Proto, missing: seq<uint8>, limit: nat, now: int, ts: bv32)
    requires missing != [] && limit > 0
    ensures var rest := missing[1..];
            AskForAll(p, missing, limit, now, ts) ==
            if RecentlyNaked(p.rel, missing[0], now) then AskForAll(p, rest, limit, now, ts)
            else
              var first := AskFor(p, missing[0], now, ts);
              var more := AskForAll(first.proto, rest, limit - 1, now, ts);
              Outcome(more.proto, first.effects + more.effects)
  {
  }

  /** From here, with `done` sent already, the rest of the numbers leads to the goal. */
  ghost predicate LeadsTo(p: Proto, missing: seq<uint8>, limit: nat, now: int, ts: bv32, done: seq<Effect>,
                          goal: Outcome) {
    var left := AskForAll(p, missing, limit, now, ts);
    goal == Outcome(left.proto, done + left.effects)
  }

  lemma Leads(p: Proto, missing: seq<uint8>, limit: nat, now: int, ts: bv32)
    ensures LeadsTo(p, missing, limit, now, ts, [], AskForAll(p, missing, limit, now, ts))
  {
    var left := AskForAll(p, missing, limit, now, ts);
    assert [] + left.effects == left.effects;
  }

  lemma Arrives(p: Proto, missing: seq<uint8>, limit: nat, now: int, ts: bv32, done: seq<Effect>, goal: Outcome)
    requires LeadsTo(p, missing, limit, now, ts, done, goal) && (missing == [] || limit == 0)
    ensures goal == Outcome(p, done)
  {
    assert done + [] == done;
  }

  function CheckGaps(p: Proto, endpoint: Endpoint, now: int, ts: bv32): Outcome {
    AskForAll(p, Missing(p.rel, endpoint), MAX_NAKS_PER_CHECK, now, ts)
  }

  // ---------------------------------------------------------------- receiving

  function ProcessPacket(p0: Proto, packet: Packet, endpoint: Endpoint, now: int, ts: bv32): Outcome {
    var kind, payload, seqNo := packet.header.kind, packet.payload, packet.header.sequence;
    var p := p0.(rel := RecordReceived(p0.rel, seqNo, endpoint, now));
    if kind.ACK? then
      if !IsBase(p) && |payload| >= 1 then Outcome(p.(rel := ProcessAck(p.rel, payload[0] as int)), [])
      else Outcome(p, [])
    else if kind.NAK? then
      if IsBase(p) && |payload| >= 1 then
        match NakAnswer(p.rel, payload[0] as int)
        case Some(again) => Outcome(p, [Send(again.0, again.1)])
        case None => Outcome(p, [])
      else Outcome(p, [])
    else if IsBase(p) then ProcessAtBase(p, packet, endpoint, ts)
    else
      var counted := p.(checkCounter := Next(p.checkCounter));
      var checked := if counted.checkCounter % 5 == 0 then CheckGaps(counted, endpoint, now, ts)
                     else Outcome(counted, []);
      Outcome(checked.proto, checked.effects + [Forward(packet, endpoint)])
  }

  /** A data packet at the base: acknowledged if the session is active, forwarded unless a
      packet with its number was acknowledged already. */
  function ProcessAtBase(p: Proto, packet: Packet, endpoint: Endpoint, ts: bv32): Outcome {
    var seqNo := packet.header.sequence;
    var known := HasAcked(p.rel, seqNo, endpoint);
    var acked := if p.sessionActive then SendAck(p, seqNo, endpoint, ts) else Outcome(p, []);
    Outcome(acked.proto, acked.effects + if known then [] else [Forward(packet, endpoint)])
  }

  function StartUp(p: Proto, now: int): Proto {
    if p.running then p else p.(running := true, rel := Start(p.rel, now))
  }

  function ShutDown(p: Proto): Proto {
    if !p.running then p else p.(running := false, rel := Stop(p.rel))
  }

  function ResetSequence(p: Proto): Proto {
    p.(current := 0, rel := Reset(p.rel))
  }

  /** Packets processed one after the other. */
  function ProcessAll(p: Proto, packets: seq<Packet>, endpoint: Endpoint, now: int, ts: bv32): Outcome
    decreases |packets|
  {
    if packets == [] then Outcome(p, [])
    else
      var first := ProcessPacket(p, packets[0], endpoint, now, ts);
      var rest := ProcessAll(first.proto, packets[1..], endpoint, now, ts);
      Outcome(rest.proto, first.effects + rest.effects)
  }

  lemma {:induction false} ProcessAllSnoc(p: Proto, packets: seq<Packet>, last: Packet, endpoint: Endpoint,
                                          now: int, ts: bv32)
    ensures var before := ProcessAll(p, packets, endpoint, now, ts);
            var step := ProcessPacket(before.proto, last, endpoint, now, ts);
            ProcessAll(p, packets + [last], endpoint, now, ts) == Outcome(step.proto, before.effects + step.effects)
    decreases |packets|
  {
    var all := packets + [last];
    if packets == [] {
      assert all[1..] == [];
    } else {
      var first := ProcessPacket(p, packets[0], endpoint, now, ts);
      assert all[1..] == packets[1..] + [last];
      ProcessAllSnoc(first.proto, packets[1..], last, endpoint, now, ts);
      var before := ProcessAll(first.proto, packets[1..], endpoint, now, ts);
      Associate(first.effects, before.effects, ProcessPacket(before.proto, last, endpoint, now, ts).effects);
    }
  }

  // ---------------------------------------------------------------- the class

  class LumenProtocol {
    const manager: ReliabilityManager
    const reassembler: Reassembler
    const base: Endpoint
    var currentSequence: uint8
    var sessionActive: bool
    var checkCounter: uint8

    function View(): Proto
      reads this, manager, reassembler
    {
      Proto(manager.View(), reassembler.running, currentSequence, sessionActive, checkCounter, base)
    }

    constructor (isBaseStation: bool, base: Endpoint)
      ensures fresh(manager) && fresh(reassembler) && reassembler.frameBuffers == map[]
      ensures var role := if isBaseStation then BASE_STATION else ROVER;
              View() == Proto(State(role, false, map[], map[], map[], map[], 0), false, 0, false, 0, base)
    {
      this.base := base;
      manager := new ReliabilityManager(isBaseStation);
      reassembler := new Reassembler();
      currentSequence, sessionActive, checkCounter := 0, false, 0;
    }

    method SendMessageTo(payload: Bytes, kind: MessageType, priority: Priority, recipient: Endpoint, now: int, ts: bv32)
      returns (effects: seq<Effect>)
      modifies this, manager
      ensures Outcome(View(), effects) == SendMessage(old(View()), payload, kind, priority, recipient, now, ts)
    {
      effects := [];
      if !reassembler.running {
        return;
      }
      var seqNo := currentSequence;
      currentSequence := Next(currentSequence);
      var packet := NewPacket(kind, priority, seqNo, ts, payload);
      var target := recipient;
      if manager.role == BASE_STATION {
        if Unspecified(recipient) {
          return;
        }
      } else if Unspecified(recipient) {
        target := base;
      }
      if !kind.ACK? && !kind.NAK? {
        manager.AddSendPacket(seqNo, packet, target, now);
      }
      effects := [Send(packet, target)];
    }

    method SendAckFor(seqNo: uint8, recipient: Endpoint, ts: bv32) returns (effects: seq<Effect>)
      modifies this, manager
      ensures Outcome(View(), effects) == SendAck(old(View()), seqNo, recipient, ts)
    {
      effects := [];
      if manager.role != BASE_STATION {
        return;
      }
      manager.RecordAckedSequence(seqNo, recipient);
      effects := [Send(NewPacket(ACK, HIGH, currentSequence, ts, [ToByte(seqNo)]), recipient)];
      currentSequence := Next(currentSequence);
    }

    method SendNakFor(seqNo: uint8, ts: bv32) returns (effects: seq<Effect>)
      modifies this
      ensures Outcome(View(), effects) == SendNak(old(View()), seqNo, ts)
    {
      effects := [];
      if manager.role == BASE_STATION {
        return;
      }
      effects := [Send(NewPacket(NAK, HIGH, currentSequence, ts, [ToByte(seqNo)]), base)];
      currentSequence := Next(currentSequence);
    }

    method AskForMissing(seqNo: uint8, now: int, ts: bv32) returns (effects: seq<Effect>)
      modifies this, manager
      ensures Outcome(View(), effects) == AskFor(old(View()), seqNo, now, ts)
    {
      effects := SendNakFor(seqNo, ts);
      manager.RecordNakSent(seqNo, now);
    }

    /** Asks for the first missing number, unless it was asked for recently. */
    method AskForFirst(missing: seq<uint8>, ghost limit: nat, now: int, ts: bv32, ghost done: seq<Effect>,
                       ghost goal: Outcome)
      returns (asked: bool, effects: seq<Effect>)
      requires missing != [] && limit > 0 && LeadsTo(View(), missing, limit, now, ts, done, goal)
      modifies this, manager
      ensures LeadsTo(View(), missing[1..], if asked then limit - 1 else limit, now, ts, done + effects, goal)
    {
      ghost var p := View();
      AskForAllTurn(p, missing, limit, now, ts);
      asked, effects := !RecentlyNaked(manager.View(), missing[0], now), [];
      if asked {
        effects := AskForMissing(missing[0], now, ts);
        Associate(done, effects, AskForAll(View(), missing[1..], limit - 1, now, ts).effects);
      } else {
        assert done + [] == done;
      }
    }

    /** The loop over the missing numbers. */
    method AskForEach(numbers: seq<uint8>, now: int, ts: bv32) returns (effects: seq<Effect>)
      modifies this, manager
      ensures Outcome(View(), effects) == AskForAll(old(View()), numbers, MAX_NAKS_PER_CHECK, now, ts)
    {
      var missing, count := numbers, 0;
      effects := [];
      ghost var goal := AskForAll(View(), missing, MAX_NAKS_PER_CHECK, now, ts);
      Leads(View(), missing, MAX_NAKS_PER_CHECK, now, ts);
      while missing != [] && count < MAX_NAKS_PER_CHECK
        invariant count <= MAX_NAKS_PER_CHECK
        invariant LeadsTo(View(), missing, MAX_NAKS_PER_CHECK - count, now, ts, effects, goal)
        decreases |missing|
      {
        var asked, sent := AskForFirst(missing, MAX_NAKS_PER_CHECK - count, now, ts, effects, goal);
        missing := missing[1..];
        count := if asked then count + 1 else count;
        effects := effects + sent;
      }
      Arrives(View(), missing, MAX_NAKS_PER_CHECK - count, now, ts, effects, goal);
    }

    method CheckSequenceGaps(endpoint: Endpoint, now: int, ts: bv32) returns (effects: seq<Effect>)
      modifies this, manager
      ensures Outcome(View(), effects) == CheckGaps(old(View()), endpoint, now, ts)
    {
      var missing := manager.GetMissingSequences(endpoint);
      effects := AskForEach(missing, now, ts);
    }

    method ProcessCompletePacket(packet: Packet, endpoint: Endpoint, now: int, ts: bv32) returns (effects: seq<Effect>)
      modifies this, manager
      ensures Outcome(View(), effects) == ProcessPacket(old(View()), packet, endpoint, now, ts)
    {
      effects := [];
      var kind, payload, seqNo := packet.header.kind, packet.payload, packet.header.sequence;
      manager.RecordReceivedSequence(seqNo, endpoint, now);
      if kind.ACK? {
        if manager.role == ROVER && |payload| >= 1 {
          manager.ProcessAckFor(payload[0] as int);
        }
        return;
      }
      if kind.NAK? {
        if manager.role == BASE_STATION && |payload| >= 1 {
          var again := manager.ProcessNakFor(payload[0] as int);
          if again.Some? {
            effects := [Send(again.value.0, again.value.1)];
          }
        }
        return;
      }
      var forward := true;
      if manager.role == BASE_STATION {
        var known := HasAcked(manager.View(), seqNo, endpoint);
        if sessionActive {
          effects := SendAckFor(seqNo, endpoint, ts);
        }
        if known {
          forward := false;
        }
      } else {
        checkCounter := Next(checkCounter);
        if checkCounter % 5 == 0 {
          effects := CheckSequenceGaps(endpoint, now, ts);
        }
      }
      if forward {
        effects := effects + [Forward(packet, endpoint)];
      }
    }

    method ProcessPackets(packets: seq<Packet>, endpoint: Endpoint, now: int, ts: bv32) returns (effects: seq<Effect>)
      modifies this, manager
      ensures Outcome(View(), effects) == ProcessAll(old(View()), packets, endpoint, now, ts)
    {
      effects := [];
      ghost var start := View();
      for i := 0 to |packets|
        invariant Outcome(View(), effects) == ProcessAll(start, packets[..i], endpoint, now, ts)
      {
        assert packets[..i + 1] == packets[..i] + [packets[i]];
        ProcessAllSnoc(start, packets[..i], packets[i], endpoint, now, ts);
        var more := ProcessCompletePacket(packets[i], endpoint, now, ts);
        effects := effects + more;
      }
      assert packets[..|packets|] == packets;
    }

    /** A datagram from the transport: reassembly, then the packets it completes. */
    method HandleUdpData(data: Bytes, endpoint: Endpoint, now: int, ts: bv32) returns (effects: seq<Effect>)
      modifies this, manager, reassembler
      ensures var buffer := old(reassembler.BufferOf(endpoint));
              var r := if old(reassembler.running) then Receive(buffer, data) else Parse([], buffer);
              && Outcome(View(), effects) == ProcessAll(old(View()), Delivered(r.segments), endpoint, now, ts)
              && reassembler.BufferOf(endpoint) == r.residue
      ensures forall e :: e != endpoint ==> reassembler.BufferOf(e) == old(reassembler.BufferOf(e))
    {
      var packets := reassembler.HandleUdpData(data, endpoint);
      effects := ProcessPackets(packets, endpoint, now, ts);
    }

    method StartProtocol(now: int)
      modifies this, manager, reassembler
      ensures View() == StartUp(old(View()), now)
      ensures !old(reassembler.running) ==> reassembler.frameBuffers == map[]
    {
      if reassembler.running {
        return;
      }
      reassembler.running := true;
      reassembler.frameBuffers := map[];
      manager.StartManager(now);
    }

    method StopProtocol()
      modifies manager, reassembler`running
      ensures View() == ShutDown(old(View()))
    {
      if !reassembler.running {
        return;
      }
      reassembler.running := false;
      manager.StopManager();
    }

    method ResetSequenceNumber()
      modifies this, manager, reassembler
      ensures View() == ResetSequence(old(View())) && reassembler.frameBuffers == map[]
    {
      currentSequence := 0;
      manager.ResetState();
      reassembler.frameBuffers := map[];
    }
  }
}
