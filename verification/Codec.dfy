/** LUMEN headers and packets: src/common/lumen_header.cpp and src/common/lumen_packet.cpp. */
module Codec {
  import opened Wire
  import opened Crc8

  // ---------------------------------------------------------------- headers

  datatype MessageType = ACK | CMD | DATA | VIDEO | STATUS | NAK

  datatype Priority = LOW | MEDIUM | HIGH

  datatype Header = Header(kind: MessageType, priority: Priority, sequence: uint8,
                           timestamp: bv32, payloadLength: uint16)

  function TypeByte(t: MessageType): byte {
    match t
    case ACK => 0
    case CMD => 1
    case DATA => 2
    case VIDEO => 3
    case STATUS => 4
    case NAK => 5
  }

  function TypeOf(b: byte): Option<MessageType> {
    if b == 0 then Some(ACK) else if b == 1 then Some(CMD) else if b == 2 then Some(DATA)
    else if b == 3 then Some(VIDEO) else if b == 4 then Some(STATUS) else if b == 5 then Some(NAK)
    else None
  }

  function PriorityByte(p: Priority): byte {
    match p
    case LOW => 0
    case MEDIUM => 1
    case HIGH => 2
  }

  function PriorityOf(b: byte): Option<Priority> {
    if b == 0 then Some(LOW) else if b == 1 then Some(MEDIUM) else if b == 2 then Some(HIGH) else None
  }

  function TimestampByte(t: bv32, k: nat): byte
    requires k < 4
  {
    if k == 3 then ((t >> 24) & 0xFF) as bv8
    else if k == 2 then ((t >> 16) & 0xFF) as bv8
    else if k == 1 then ((t >> 8) & 0xFF) as bv8
    else (t & 0xFF) as bv8
  }

  function TimestampOf(b3: byte, b2: byte, b1: byte, b0: byte): bv32 {
    ((b3 as bv32) << 24) | ((b2 as bv32) << 16) | ((b1 as bv32) << 8) | (b0 as bv32)
  }

  lemma TimestampJoins(b3: byte, b2: byte, b1: byte, b0: byte)
    ensures var t := TimestampOf(b3, b2, b1, b0);
            && TimestampByte(t, 3) == b3 && TimestampByte(t, 2) == b2
            && TimestampByte(t, 1) == b1 && TimestampByte(t, 0) == b0
  {
  }

  function LengthOf(high: byte, low: byte): (n: uint16)
    ensures n == 256 * (high as int) + low as int
  {
    256 * (high as int) + low as int
  }

  function HeaderBytes(h: Header): (bytes: Bytes)
    ensures |bytes| == HEADER_SIZE
  {
    [STX, TypeByte(h.kind), PriorityByte(h.priority), ToByte(h.sequence),
     TimestampByte(h.timestamp, 3), TimestampByte(h.timestamp, 2),
     TimestampByte(h.timestamp, 1), TimestampByte(h.timestamp, 0),
     ToByte(h.payloadLength / 256), ToByte(h.payloadLength % 256)]
  }

  method HeaderToBytes(h: Header) returns (result: Bytes)
    ensures result == HeaderBytes(h)
  {
    var bytes := new byte[HEADER_SIZE];
    bytes[0] := STX;
    bytes[1] := TypeByte(h.kind);
    bytes[2] := PriorityByte(h.priority);
    bytes[3] := ToByte(h.sequence);
    bytes[4] := TimestampByte(h.timestamp, 3);
    bytes[5] := TimestampByte(h.timestamp, 2);
    bytes[6] := TimestampByte(h.timestamp, 1);
    bytes[7] := TimestampByte(h.timestamp, 0);
    bytes[8] := ToByte(h.payloadLength / 256);
    bytes[9] := ToByte(h.payloadLength % 256);
    result := [bytes[0], bytes[1], bytes[2], bytes[3], bytes[4], bytes[5], bytes[6], bytes[7], bytes[8], bytes[9]];
  }

  function ParseHeader(bytes: Bytes): Option<Header> {
    if |bytes| < HEADER_SIZE || bytes[0] != STX then None else
    var kind := TypeOf(bytes[1]);
    var priority := PriorityOf(bytes[2]);
    var timestamp := TimestampOf(bytes[4], bytes[5], bytes[6], bytes[7]);
    var length := LengthOf(bytes[8], bytes[9]);
    if kind.None? || priority.None? then None
    else Some(Header(kind.value, priority.value, bytes[3] as int, timestamp, length))
  }

  /** Reading a header back, whatever follows it. */
  lemma HeaderRoundTrip(h: Header, suffix: Bytes)
    ensures ParseHeader(HeaderBytes(h) + suffix) == Some(h)
  {
  }

  lemma ByteOfValue(b: byte)
    ensures ToByte(b as int) == b
  {
    ByteValueInjective(ToByte(b as int), b);
  }

  lemma ByteValueInjective(a: byte, b: byte)
    requires a as int == b as int
    ensures a == b
  {
  }

  /** A header that parses is the one its ten bytes encode. */
  lemma HeaderSound(bytes: Bytes)
    requires ParseHeader(bytes).Some?
    ensures HeaderBytes(ParseHeader(bytes).value) == bytes[..HEADER_SIZE]
  {
    var h := ParseHeader(bytes).value;
    TimestampJoins(bytes[4], bytes[5], bytes[6], bytes[7]);
    LengthSplits(bytes[8], bytes[9]);
    ByteOfValue(bytes[3]);
    assert TypeByte(h.kind) == bytes[1] && PriorityByte(h.priority) == bytes[2];
  }

  lemma LengthSplits(high: byte, low: byte)
    ensures var n := LengthOf(high, low); ToByte(n / 256) == high && ToByte(n % 256) == low
  {
    var n := LengthOf(high, low);
    assert n / 256 == high as int && n % 256 == low as int;
    ByteOfValue(high);
    ByteOfValue(low);
  }

  // ---------------------------------------------------------------- packets

  datatype Packet = Packet(header: Header, payload: Bytes)

  /** The constructor overwrites the header's length with the payload's, cut to 16 bits. */
  function MakePacket(h: Header, payload: Bytes): (p: Packet)
    ensures WellFormed(p)
  {
    Packet(h.(payloadLength := |payload| % 65536), payload)
  }

  /** What every constructed packet satisfies. */
  predicate WellFormed(p: Packet) {
    p.header.payloadLength == |p.payload| % 65536
  }

  /** A packet whose payload fits the length field. */
  predicate Sendable(p: Packet) {
    p.header.payloadLength == |p.payload|
  }

  function TotalSize(p: Packet): nat {
    HEADER_SIZE + |p.payload| + 2
  }

  function Body(p: Packet): Bytes {
    HeaderBytes(p.header) + p.payload
  }

  function PacketBytes(p: Packet): (bytes: Bytes)
    ensures |bytes| == TotalSize(p)
  {
    Body(p) + [Crc(Body(p)), ETX]
  }

  method PacketToBytes(p: Packet) returns (bytes: Bytes)
    ensures bytes == PacketBytes(p)
  {
    bytes := HeaderToBytes(p.header);
    bytes := bytes + p.payload;
    var crc := CalculateCrc8(bytes);
    bytes := bytes + [crc];
    bytes := bytes + [ETX];
    assert bytes == Body(p) + [crc, ETX];
  }

  /** The header on the wire, byte by byte: start marker, type, priority, sequence number, and
      the timestamp and the payload length with their most significant bytes first. */
  lemma HeaderFormat(h: Header)
    ensures var b := HeaderBytes(h);
            && |b| == 10 && b[0] == 0x02
            && b[1] == (match h.kind
                        case ACK => 0 case CMD => 1 case DATA => 2 case VIDEO => 3 case STATUS => 4 case NAK => 5)
            && b[2] == (match h.priority case LOW => 0 case MEDIUM => 1 case HIGH => 2)
            && b[3] as int == h.sequence
            && ((b[4] as bv32) << 24) | ((b[5] as bv32) << 16) | ((b[6] as bv32) << 8) | (b[7] as bv32) == h.timestamp
            && 256 * (b[8] as int) + b[9] as int == h.payloadLength
  {
    TimestampSplits(h.timestamp);
  }

  /** The packet on the wire: the header, the payload, the checksum of both, and the end
      marker. */
  lemma PacketFormat(p: Packet)
    ensures var b, n := PacketBytes(p), |p.payload|;
            && |b| == n + 12 && b[..10] == HeaderBytes(p.header) && b[10..n + 10] == p.payload
            && b[n + 10] == Crc(b[..n + 10]) && b[n + 11] == 0x03
  {
    assert PacketBytes(p)[..|p.payload| + 10] == Body(p);
  }

  lemma TimestampSplits(t: bv32)
    ensures TimestampOf(TimestampByte(t, 3), TimestampByte(t, 2), TimestampByte(t, 1), TimestampByte(t, 0)) == t
  {
  }

  /** The size that a parsed header declares for its packet. */
  function DeclaredSize(h: Header): nat {
    HEADER_SIZE + h.payloadLength + 2
  }

  /** The first `n` bytes end in the checksum of the others and an end marker. */
  predicate Checked(bytes: Bytes, n: nat)
    requires 2 <= n <= |bytes|
  {
    bytes[n - 1] == ETX && Crc(bytes[..n - 2]) == bytes[n - 2]
  }

  function ParseRest(h: Header, bytes: Bytes): Option<Packet> {
    var n := DeclaredSize(h);
    if |bytes| < n || !Checked(bytes, n) then None
    else Some(MakePacket(h, bytes[HEADER_SIZE..n - 2]))
  }

  function ParsePacket(bytes: Bytes): Option<Packet> {
    var header := ParseHeader(bytes);
    if header.None? then None else ParseRest(header.value, bytes)
  }

  predicate IsValid(p: Packet) {
    var bytes := PacketBytes(p);
    |bytes| >= HEADER_SIZE + 2 && Checked(bytes, |bytes|)
  }

  /** `is_valid` re-encodes the packet it checks, so it accepts every packet. */
  lemma IsValidAlways(p: Packet)
    ensures IsValid(p)
  {
  }

  lemma EncodedBody(p: Packet, suffix: Bytes)
    ensures var bytes := PacketBytes(p) + suffix;
            var n := TotalSize(p);
            bytes[..n - 2] == Body(p) && bytes[n - 2] == Crc(Body(p)) && bytes[n - 1] == ETX
  {
  }

  lemma EncodedPayload(p: Packet, suffix: Bytes)
    ensures (PacketBytes(p) + suffix)[HEADER_SIZE..TotalSize(p) - 2] == p.payload
  {
  }

  lemma EncodedChecked(p: Packet, suffix: Bytes)
    ensures Checked(PacketBytes(p) + suffix, TotalSize(p))
  {
    EncodedBody(p, suffix);
  }

  lemma RestAccepts(h: Header, payload: Bytes, bytes: Bytes)
    requires h.payloadLength == |payload| && DeclaredSize(h) <= |bytes| && Checked(bytes, DeclaredSize(h))
    requires bytes[HEADER_SIZE..DeclaredSize(h) - 2] == payload
    ensures ParseRest(h, bytes) == Some(Packet(h, payload))
  {
  }

  lemma RestRoundTrip(p: Packet, suffix: Bytes)
    requires Sendable(p)
    ensures ParseRest(p.header, PacketBytes(p) + suffix) == Some(p)
  {
    EncodedChecked(p, suffix);
    EncodedPayload(p, suffix);
    RestAccepts(p.header, p.payload, PacketBytes(p) + suffix);
  }

  lemma EncodedHeader(p: Packet, suffix: Bytes)
    ensures ParseHeader(PacketBytes(p) + suffix) == Some(p.header)
  {
  }

  lemma SendableRoundTrip(p: Packet, suffix: Bytes)
    requires Sendable(p)
    ensures ParsePacket(PacketBytes(p) + suffix) == Some(p)
  {
    EncodedHeader(p, suffix);
    RestRoundTrip(p, suffix);
  }

  lemma RestParts(h: Header, bytes: Bytes)
    requires ParseRest(h, bytes).Some?
    ensures var p := ParseRest(h, bytes).value;
            var n := TotalSize(p);
            && p.header == h && Sendable(p) && n <= |bytes|
            && p.payload == bytes[HEADER_SIZE..n - 2] && Checked(bytes, n)
  {
  }

  lemma ParsedParts(bytes: Bytes)
    requires ParsePacket(bytes).Some?
    ensures var p := ParsePacket(bytes).value;
            var n := TotalSize(p);
            && ParseHeader(bytes) == Some(p.header) && Sendable(p) && n <= |bytes|
            && p.payload == bytes[HEADER_SIZE..n - 2] && Checked(bytes, n)
  {
    RestParts(ParseHeader(bytes).value, bytes);
  }

  lemma Reassemble(bytes: Bytes, n: nat)
    requires HEADER_SIZE + 2 <= n <= |bytes|
    ensures bytes[..HEADER_SIZE] + bytes[HEADER_SIZE..n - 2] == bytes[..n - 2]
    ensures bytes[..n - 2] + [bytes[n - 2], bytes[n - 1]] == bytes[..n]
  {
  }

  /** A packet that parses is the one encoded by the first `TotalSize` bytes. */
  lemma ParseSound(bytes: Bytes)
    requires ParsePacket(bytes).Some?
    ensures var p := ParsePacket(bytes).value;
            && Sendable(p) && TotalSize(p) <= |bytes|
            && PacketBytes(p) == bytes[..TotalSize(p)]
            && ParseHeader(bytes) == Some(p.header)
  {
    ParsedParts(bytes);
    HeaderSound(bytes);
    Reassemble(bytes, TotalSize(ParsePacket(bytes).value));
  }

  /** Encoding then parsing gives a constructed packet back, whatever bytes follow it,
      exactly when its payload is shorter than 65536 bytes. */
  lemma RoundTrip(p: Packet, suffix: Bytes)
    requires WellFormed(p)
    ensures ParsePacket(PacketBytes(p) + suffix) == Some(p) <==> |p.payload| < 65536
  {
    if |p.payload| < 65536 {
      SendableRoundTrip(p, suffix);
    } else if ParsePacket(PacketBytes(p) + suffix).Some? {
      ParseSound(PacketBytes(p) + suffix);
    }
  }

  // ---------------------------------------------------------------- damage

  lemma PlusZeroes(a: byte)
    ensures Plus(a, 0) == a
  {
  }

  lemma PlusChanges(a: byte, e: byte)
    requires e != 0
    ensures Plus(a, e) != a
  {
  }

  lemma CountFalse(bits: seq<bool>)
    requires AllFalse(bits)
    ensures CountTrue(bits) == 0
  {
  }

  lemma ZeroBits()
    ensures Bits([0]) == ByteBits(0, 8) && AllFalse(Bits([0]))
  {
  }

  lemma {:induction false} CountConcat(a: seq<bool>, b: seq<bool>)
    ensures CountTrue(a + b) == CountTrue(a) + CountTrue(b)
  {
    if a == [] {
      assert a + b == b;
    } else {
      assert (a + b)[1..] == a[1..] + b;
      CountConcat(a[1..], b);
    }
  }

  /** Dropping a clean last byte keeps an error detectable. */
  lemma DetectableWithoutLast(e: Bytes)
    requires |e| > 0 && Detectable(e + [0])
    ensures Detectable(e)
  {
    BitsConcat(e, [0]);
    ZeroBits();
    if OddWeight(e + [0]) {
      CountConcat(Bits(e), Bits([0]));
      CountFalse(Bits([0]));
    } else {
      var bits, all := Bits(e), Bits(e + [0]);
      var k :| 0 <= k <= |all| && BurstAt(all, k);
      forall i | 0 <= i < |bits| ensures all[i] == bits[i] {}
      var i :| 0 <= i < |all| && all[i];
      assert i < |bits| && bits[i];
      assert BurstAt(bits, if k + 8 <= |bits| then k else |bits| - 8);
    }
  }

  /** The checksum catches a detectable error that spares the last byte. */
  lemma ChecksumCatches(frame: Bytes, e: Bytes)
    requires |frame| == |e| >= 3 && Detectable(e)
    requires Checked(frame, |e|) && e[|e| - 1] == 0
    ensures !Checked(Xor(frame, e), |e|)
  {
    var n := |e|;
    var hit := Xor(frame, e);
    assert e == e[..n - 1] + [0];
    DetectableWithoutLast(e[..n - 1]);
    Codeword(frame[..n - 2], frame[n - 2]);
    assert frame[..n - 2] + [frame[n - 2]] == frame[..n - 1];
    CrcDetects(frame[..n - 1], e[..n - 1]);
    assert Xor(frame[..n - 1], e[..n - 1]) == hit[..n - 2] + [hit[n - 2]];
    Codeword(hit[..n - 2], hit[n - 2]);
  }

  lemma CheckCatches(frame: Bytes, e: Bytes)
    requires |frame| == |e| >= 3 && Detectable(e) && Checked(frame, |e|)
    ensures !Checked(Xor(frame, e), |e|)
  {
    if e[|e| - 1] != 0 {
      PlusChanges(frame[|e| - 1], e[|e| - 1]);
    } else {
      ChecksumCatches(frame, e);
    }
  }

  lemma CheckedPrefix(a: Bytes, b: Bytes, n: nat)
    requires 2 <= n <= |a| && n <= |b| && a[..n] == b[..n]
    ensures Checked(a, n) == Checked(b, n)
  {
    assert a[n - 1] == a[..n][n - 1] && a[n - 2] == a[..n][n - 2];
    assert a[..n - 2] == a[..n][..n - 2] == b[..n][..n - 2] == b[..n - 2];
  }

  lemma SameDeclaredSize(a: Bytes, b: Bytes)
    requires ParseHeader(a).Some? && ParseHeader(b).Some? && a[8] == b[8] && a[9] == b[9]
    ensures DeclaredSize(ParseHeader(a).value) == DeclaredSize(ParseHeader(b).value)
  {
  }

  /** An accepted frame hit by an odd number of bit flips, or by a burst of at most eight
      bits, is refused if the length field is intact. */
  lemma DamageRefused(bytes: Bytes, e: Bytes, suffix: Bytes)
    requires ParsePacket(bytes).Some?
    requires |e| == TotalSize(ParsePacket(bytes).value) <= |bytes|
    requires e[8] == 0 && e[9] == 0 && Detectable(e)
    ensures ParsePacket(Xor(bytes[..|e|], e) + suffix).None?
  {
    var n := |e|;
    var frame := bytes[..n];
    var hit := Xor(frame, e) + suffix;
    ParsedParts(bytes);
    CheckedPrefix(bytes, frame, n);
    CheckCatches(frame, e);
    CheckedPrefix(Xor(frame, e), hit, n);
    if ParsePacket(hit).Some? {
      ParsedParts(hit);
      PlusZeroes(frame[8]);
      PlusZeroes(frame[9]);
      SameDeclaredSize(bytes, hit);
    }
  }

  /** Damage that spares the marker, type, priority and length bytes leaves a header that
      still declares the original size. */
  lemma DamageKeepsSize(p: Packet, e: Bytes, suffix: Bytes)
    requires Sendable(p) && |e| == TotalSize(p)
    requires e[0] == e[1] == e[2] == e[8] == e[9] == 0
    ensures var h := ParseHeader(Xor(PacketBytes(p), e) + suffix);
            h.Some? && DeclaredSize(h.value) == TotalSize(p)
  {
  }
}
