/** Constants of the wire format and of the timers (include/common/configs.hpp), and the
    byte-level vocabulary shared by every other module. */
module Wire {
  import opened Folds

  type byte = bv8
  type Bytes = seq<byte>

  /** An 8-bit unsigned integer: a sequence number. Arithmetic on it is modulo 256. */
  type uint8 = n: int | 0 <= n < 256

  /** A 16-bit unsigned integer. */
  type uint16 = n: int | 0 <= n < 65536

  const STX: byte := 0x02
  const ETX: byte := 0x03

  const HEADER_SIZE := 10
  const MAX_FRAME_BUFFER_SIZE := 4096

  /** Milliseconds. */
  const BASE_TIMEOUT := 5000
  const NAK_DEBOUNCE_TIME := 1000
  const CLEANUP_INTERVAL := 5000
  const SEQUENCE_RETAIN_TIME := 30000

  const MAX_RETRIES := 2
  const WINDOW_SIZE := 16
  const MAX_NAKS_PER_CHECK := 3

  datatype Option<+T> = None | Some(value: T)

  /** An address and a port. Address 0 is the unspecified address. */
  datatype Endpoint = Endpoint(address: nat, port: nat)

  const BASE_PORT := 9000

  /** Addition of 1 on an 8-bit number. */
  function Next(n: uint8): uint8 {
    if n == 255 then 0 else n + 1
  }

  /** `n` issued after `i` others. */
  function Later(n: uint8, i: nat): uint8 {
    (n + i) % 256
  }

  lemma LaterNext(n: uint8, i: nat)
    ensures Later(Next(n), i) == Later(n, i + 1) && Later(n, 0) == n
  {
  }

  const UNSPECIFIED := Endpoint(0, 0)

  /** The byte whose value is `n`. */
  function ToByte(n: uint8): (b: byte)
    ensures b as int == n
  {
    if n == 0 then 0 else ToByte(n - 1) + 1
  }

  function Plus(a: byte, b: byte): byte {
    a ^ b
  }

  /** Bytewise exclusive or: the effect of the error pattern `e` on `s`. */
  function Xor(s: Bytes, e: Bytes): (r: Bytes)
    requires |s| == |e|
    ensures |r| == |s|
    ensures forall i :: 0 <= i < |s| ==> r[i] == Plus(s[i], e[i])
  {
    Zip(Plus, s, e)
  }

  function Zeros(n: nat): (z: Bytes)
    ensures |z| == n && forall i :: 0 <= i < n ==> z[i] == 0
  {
    seq(n, _ => 0)
  }
}
