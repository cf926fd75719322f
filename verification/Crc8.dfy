/** The CRC-8 of `LumenHeader::calculate_crc8` (src/common/lumen_header.cpp), its
    characterisation as a polynomial remainder, and the errors it detects. */
module Crc8 {
  import opened Folds
  import opened Wire

  // ---------------------------------------------------------------- the computation

  /** One turn of the inner loop. */
  function Shift(c: byte): byte {
    if TopBit(c) then Plus(Shl(c), 0x07) else Shl(c)
  }

  predicate TopBit(c: byte) {
    c & 0x80 != 0
  }

  function Shl(c: byte): byte {
    c << 1
  }

  function Absorb(crc: byte, b: byte): byte {
    Iterate(Shift, Plus(crc, b), 8)
  }

  function Crc(data: Bytes): byte {
    Fold(Absorb, 0, data)
  }

  method CalculateCrc8(data: Bytes) returns (crc: byte)
    ensures crc == Crc(data)
  {
    crc := 0;
    for k := 0 to |data|
      invariant Fold(Absorb, crc, data[k..]) == Crc(data)
    {
      ghost var before := crc;
      crc := Plus(crc, data[k]);
      for i := 0 to 8
        invariant Iterate(Shift, crc, 8 - i) == Absorb(before, data[k])
      {
        if TopBit(crc) {
          crc := Plus(Shl(crc), 0x07);
        } else {
          crc := Shl(crc);
        }
      }
      assert data[k..][1..] == data[k + 1..];
    }
  }

  // ---------------------------------------------------------------- linearity

  lemma PlusCommutes(a: byte, b: byte)
    ensures Plus(a, b) == Plus(b, a)
  {
  }

  lemma PlusAssociates(a: byte, b: byte, c: byte)
    ensures Plus(Plus(a, b), c) == Plus(a, Plus(b, c))
  {
  }

  lemma PlusAdditive()
    ensures Additive(Plus)
  {
    forall x, y ensures Plus(x, y) == Plus(y, x) { PlusCommutes(x, y); }
    forall x, y, z ensures Plus(Plus(x, y), z) == Plus(x, Plus(y, z)) { PlusAssociates(x, y, z); }
  }

  /** What `Shift` adds to the shifted register. */
  function Feedback(c: byte): byte {
    if TopBit(c) then 0x07 else 0
  }

  lemma ShiftAddsFeedback(c: byte)
    ensures Shift(c) == Plus(Shl(c), Feedback(c))
  {
  }

  lemma ShlLinear(a: byte, b: byte)
    ensures Shl(Plus(a, b)) == Plus(Shl(a), Shl(b))
  {
  }

  lemma FeedbackLinear(a: byte, b: byte)
    ensures Feedback(Plus(a, b)) == Plus(Feedback(a), Feedback(b))
  {
  }

  lemma ShiftLinear()
    ensures Linear(Shift, Plus)
  {
    PlusAdditive();
    forall a, b ensures Shl(Plus(a, b)) == Plus(Shl(a), Shl(b)) { ShlLinear(a, b); }
    forall a, b ensures Feedback(Plus(a, b)) == Plus(Feedback(a), Feedback(b)) { FeedbackLinear(a, b); }
    forall c ensures Shift(c) == Plus(Shl(c), Feedback(c)) { ShiftAddsFeedback(c); }
    SumLinear(Shl, Feedback, Shift, Plus);
  }

  lemma AbsorbLinear(c: byte, d: byte, a: byte, b: byte)
    ensures Absorb(Plus(c, d), Plus(a, b)) == Plus(Absorb(c, a), Absorb(d, b))
  {
    PlusAdditive();
    PlusSwap(Plus, c, d, a, b);
    ShiftLinear();
    IterateLinear(Shift, Plus, Plus(c, a), Plus(d, b), 8);
  }

  lemma AbsorbBilinear()
    ensures Bilinear(Absorb, Plus)
  {
    forall c, d, a, b ensures Absorb(Plus(c, d), Plus(a, b)) == Plus(Absorb(c, a), Absorb(d, b)) {
      AbsorbLinear(c, d, a, b);
    }
  }

  lemma CrcLinearFrom(c: byte, d: byte, a: Bytes, b: Bytes)
    requires |a| == |b|
    ensures Fold(Absorb, Plus(c, d), Xor(a, b)) == Plus(Fold(Absorb, c, a), Fold(Absorb, d, b))
  {
    AbsorbBilinear();
    FoldLinear(Absorb, Plus, c, d, a, b);
  }

  lemma PlusSelf(c: byte)
    ensures Plus(c, c) == 0
  {
  }

  /** The checksum of an exclusive or is the exclusive or of the checksums. */
  lemma CrcLinear(a: Bytes, b: Bytes)
    requires |a| == |b|
    ensures Crc(Xor(a, b)) == Plus(Crc(a), Crc(b))
  {
    PlusSelf(0);
    CrcLinearFrom(0, 0, a, b);
  }

  // ---------------------------------------------------------------- bits

  /** The first `n` bits of `b`, most significant first. */
  function ByteBits(b: byte, n: nat): (bits: seq<bool>)
    ensures |bits| == n
  {
    seq(n, i requires 0 <= i < n => TopBit(Iterate(Shl, b, i)))
  }

  function Bits(data: Bytes): (bits: seq<bool>)
    ensures |bits| == 8 * |data|
  {
    if data == [] then [] else ByteBits(data[0], 8) + Bits(data[1..])
  }

  lemma {:induction false} BitsConcat(a: Bytes, b: Bytes)
    ensures Bits(a + b) == Bits(a) + Bits(b)
  {
    if a == [] {
      assert a + b == b;
    } else {
      assert (a + b)[1..] == a[1..] + b;
      BitsConcat(a[1..], b);
    }
  }

  /** The register fed with a single message bit. */
  function Step(c: byte, bit: bool): byte {
    Shift(Plus(c, if bit then 0x80 else 0))
  }

  lemma ShiftKeepsLowBits(y: byte)
    ensures Shift(y) == Plus(Shift(if TopBit(y) then 0x80 else 0), Shl(y))
  {
  }

  lemma ShiftSplitsTopBit(x: byte, y: byte)
    ensures Shift(Plus(x, y)) == Plus(Step(x, TopBit(y)), Shl(y))
  {
    PlusAdditive();
    ShiftLinear();
    ShiftKeepsLowBits(y);
    LinearSplit(Shift, Plus, x, y, if TopBit(y) then 0x80 else 0, Shl(y));
  }

  lemma {:induction false} IterateFeeds(x: byte, y: byte, n: nat)
    requires Iterate(Shl, y, n) == 0
    ensures Iterate(Shift, Plus(x, y), n) == Fold(Step, x, ByteBits(y, n))
    decreases n
  {
    if n > 0 {
      var bits := ByteBits(y, n);
      assert bits[1..] == ByteBits(Shl(y), n - 1);
      ShiftSplitsTopBit(x, y);
      IterateFeeds(Step(x, TopBit(y)), Shl(y), n - 1);
    }
  }

  lemma ShlIterates(b: byte)
    ensures Iterate(Shl, b, 1) == b << 1 && Iterate(Shl, b, 2) == b << 2
    ensures Iterate(Shl, b, 3) == b << 3 && Iterate(Shl, b, 4) == b << 4
    ensures Iterate(Shl, b, 5) == b << 5 && Iterate(Shl, b, 6) == b << 6
    ensures Iterate(Shl, b, 7) == b << 7
  {
    IterateLast(Shl, b, 0);
    IterateLast(Shl, b, 1);
    IterateLast(Shl, b, 2);
    IterateLast(Shl, b, 3);
    IterateLast(Shl, b, 4);
    IterateLast(Shl, b, 5);
    IterateLast(Shl, b, 6);
  }

  lemma ShlEight(y: byte)
    ensures Iterate(Shl, y, 8) == 0
  {
    ShlIterates(y);
    IterateLast(Shl, y, 7);
  }

  lemma AbsorbFeeds(c: byte, b: byte)
    ensures Absorb(c, b) == Fold(Step, c, ByteBits(b, 8))
  {
    ShlEight(b);
    IterateFeeds(c, b, 8);
  }

  /** The bytewise loop computes what a bit-serial register computes. */
  lemma {:induction false} CrcFeeds(c: byte, data: Bytes)
    ensures Fold(Absorb, c, data) == Fold(Step, c, Bits(data))
    decreases |data|
  {
    if data != [] {
      AbsorbFeeds(c, data[0]);
      FoldConcat(Step, c, ByteBits(data[0], 8), Bits(data[1..]));
      CrcFeeds(Absorb(c, data[0]), data[1..]);
    }
  }

  // ---------------------------------------------------------------- polynomials over GF(2)

  /** Coefficients, highest degree first. */
  type Poly = seq<bool>

  /** x^8 + x^2 + x + 1 */
  const GENERATOR: Poly := [true, false, false, false, false, false, true, true, true]

  /** `p` plus `t` times the generator, aligned at degree 0. */
  function AddGenerator(p: Poly, t: bool): (r: Poly)
    requires |p| >= 9
    ensures |r| == |p|
  {
    var n := |p| - 9;
    p[..n] + (if t then Zip((a, b) => a != b, p[n..], GENERATOR) else p[n..])
  }

  /** `q` times the generator, by Horner's rule. */
  function TimesGenerator(q: Poly): (r: Poly)
    ensures |r| == |q| + 8
  {
    if q == [] then [false, false, false, false, false, false, false, false]
    else AddGenerator(TimesGenerator(q[..|q| - 1]) + [false], q[|q| - 1])
  }

  /** Long division by the generator, one message bit `b` at a time, on the eight
      coefficients of the remainder. */
  function NextRemainder(r: Poly, b: bool): Poly
    requires |r| == 8
  {
    var t := r[0] != b;
    [r[1], r[2], r[3], r[4], r[5], r[6] != t, r[7] != t, t]
  }

  lemma DivisionStep(q: Poly, bits: Poly, r: Poly, b: bool)
    requires |q| == |bits| && |r| == 8 && TimesGenerator(q) == bits + r
    ensures TimesGenerator(q + [r[0] != b]) == bits + [b] + NextRemainder(r, b)
  {
    assert (q + [r[0] != b])[..|q|] == q;
    AddGeneratorTail(bits, r, r[0] != b);
  }

  lemma AddGeneratorTail(bits: Poly, r: Poly, t: bool)
    requires |r| == 8
    ensures AddGenerator(bits + r + [false], t) == bits + [r[0] != t] + NextRemainder(r, r[0] != t)
  {
  }

  lemma StepBits(r: byte, b: bool)
    ensures var s := Step(r, b);
            var t := TopBit(r) != b;
            && TopBit(s) == TopBit(r << 1) && TopBit(s << 1) == TopBit(r << 2)
            && TopBit(s << 2) == TopBit(r << 3) && TopBit(s << 3) == TopBit(r << 4)
            && TopBit(s << 4) == TopBit(r << 5) && TopBit(s << 5) == (TopBit(r << 6) != t)
            && TopBit(s << 6) == (TopBit(r << 7) != t) && TopBit(s << 7) == t
  {
  }

  lemma ByteBitsAre(b: byte)
    ensures ByteBits(b, 8) == [TopBit(b), TopBit(b << 1), TopBit(b << 2), TopBit(b << 3),
                               TopBit(b << 4), TopBit(b << 5), TopBit(b << 6), TopBit(b << 7)]
  {
    ShlIterates(b);
  }

  /** The register update is a step of long division. */
  lemma StepDivides(r: byte, b: bool)
    ensures ByteBits(Step(r, b), 8) == NextRemainder(ByteBits(r, 8), b)
  {
    ByteBitsAre(r);
    ByteBitsAre(Step(r, b));
    StepBits(r, b);
  }

  /** A quotient exists: the register always holds the remainder of the bits fed so far. */
  lemma {:induction false} RegisterHoldsRemainder(bits: Poly) returns (q: Poly)
    ensures |q| == |bits|
    ensures TimesGenerator(q) == bits + ByteBits(Fold(Step, 0, bits), 8)
  {
    if bits == [] {
      q := [];
      ByteBitsAre(0);
    } else {
      var n := |bits| - 1;
      var init := bits[..n];
      assert bits == init + [bits[n]];
      FoldConcat(Step, 0, init, [bits[n]]);
      var r := Fold(Step, 0, init);
      q := RegisterHoldsRemainder(init);
      DivisionStep(q, init, ByteBits(r, 8), bits[n]);
      StepDivides(r, bits[n]);
      q := q + [ByteBits(r, 8)[0] != bits[n]];
    }
  }

  lemma SameParts(a: Poly, x: bool, r: Poly, b: Poly, y: bool, s: Poly)
    requires |a| == |b| && a + [x] + r == b + [y] + s
    ensures a == b && x == y && r == s
  {
    var left, right := a + [x] + r, b + [y] + s;
    assert a == left[..|a|] && b == right[..|a|];
    assert x == left[|a|] && y == right[|a|];
    assert r == left[|a| + 1..] && s == right[|a| + 1..];
  }

  /** Undoing a step of long division. */
  lemma DivisionUnstep(q: Poly, t: bool, bits: Poly, b: bool, r: Poly) returns (s: Poly)
    requires |q| == |bits| && |r| == 8
    requires AddGenerator(TimesGenerator(q) + [false], t) == bits + [b] + r
    ensures |s| == 8 && TimesGenerator(q) == bits + s && r == NextRemainder(s, b)
  {
    var p := TimesGenerator(q);
    var n := |bits|;
    s := p[n..];
    assert p + [false] == p[..n] + s + [false];
    AddGeneratorTail(p[..n], s, t);
    SameParts(p[..n], s[0] != t, NextRemainder(s, s[0] != t), bits, b, r);
  }

  /** The remainder is unique: the generator is monic. */
  lemma {:induction false} RemainderUnique(bits: Poly, q: Poly, r: Poly)
    requires |q| == |bits| && |r| == 8 && TimesGenerator(q) == bits + r
    ensures r == ByteBits(Fold(Step, 0, bits), 8)
  {
    if bits == [] {
      ByteBitsAre(0);
      assert bits + r == r;
    } else {
      var n := |bits| - 1;
      var init, b := bits[..n], bits[n];
      assert bits == init + [b];
      var s := DivisionUnstep(q[..n], q[n], init, b, r);
      RemainderUnique(init, q[..n], s);
      FoldConcat(Step, 0, init, [b]);
      StepDivides(Fold(Step, 0, init), b);
    }
  }

  lemma ByteBitsInjective(a: byte, b: byte)
    requires ByteBits(a, 8) == ByteBits(b, 8)
    ensures a == b
  {
    ByteBitsAre(a);
    ByteBitsAre(b);
    assert [TopBit(a), TopBit(a << 1), TopBit(a << 2), TopBit(a << 3)] == ByteBits(a, 8)[..4];
  }

  /** `c` is the checksum of `data` exactly when the message followed by `c`, read as a
      polynomial over GF(2), is a multiple of x^8 + x^2 + x + 1. */
  lemma CrcIsRemainder(data: Bytes, c: byte)
    ensures c == Crc(data) <==>
            exists q: Poly :: |q| == 8 * |data| && TimesGenerator(q) == Bits(data + [c])
  {
    BitsConcat(data, [c]);
    assert Bits([c]) == ByteBits(c, 8);
    CrcFeeds(0, data);
    if c == Crc(data) {
      var q := RegisterHoldsRemainder(Bits(data));
    }
    forall q: Poly | |q| == 8 * |data| && TimesGenerator(q) == Bits(data + [c])
      ensures c == Crc(data)
    {
      RemainderUnique(Bits(data), q, ByteBits(c, 8));
      ByteBitsInjective(c, Crc(data));
    }
  }

  // ---------------------------------------------------------------- parity

  function CountTrue(bits: seq<bool>): nat {
    if bits == [] then 0 else (if bits[0] then 1 else 0) + CountTrue(bits[1..])
  }

  predicate OddWeight(data: Bytes) {
    CountTrue(Bits(data)) % 2 == 1
  }

  predicate Odd(bits: seq<bool>) {
    bits != [] && (bits[0] != Odd(bits[1..]))
  }

  lemma {:induction false} OddCount(bits: seq<bool>)
    ensures Odd(bits) == (CountTrue(bits) % 2 == 1)
  {
    if bits != [] {
      OddCount(bits[1..]);
    }
  }

  lemma OddFour(a: bool, b: bool, c: bool, d: bool, rest: seq<bool>)
    ensures Odd([a, b, c, d] + rest) == (a != (b != (c != (d != Odd(rest)))))
  {
    var s := [a, b, c, d] + rest;
    assert s[1..][1..][1..][1..] == rest;
    assert Odd(s[1..][1..][1..]) == (d != Odd(rest));
    assert Odd(s[1..][1..]) == (c != (d != Odd(rest)));
  }

  lemma OddEight(r: seq<bool>)
    requires |r| == 8
    ensures Odd(r) == (r[0] != (r[1] != (r[2] != (r[3] != (r[4] != (r[5] != (r[6] != r[7])))))))
  {
    assert r == [r[0], r[1], r[2], r[3]] + ([r[4], r[5], r[6], r[7]] + []);
    OddFour(r[0], r[1], r[2], r[3], [r[4], r[5], r[6], r[7]] + []);
    OddFour(r[4], r[5], r[6], r[7], []);
  }

  /** A step of the register flips its parity exactly when the message bit is set. */
  lemma StepParity(r: Poly, b: bool)
    requires |r| == 8
    ensures Odd(NextRemainder(r, b)) == (Odd(r) != b)
  {
    OddEight(r);
    OddEight(NextRemainder(r, b));
  }

  lemma {:induction false} RegisterParity(c: byte, bits: seq<bool>)
    ensures Odd(ByteBits(Fold(Step, c, bits), 8)) == (Odd(ByteBits(c, 8)) != Odd(bits))
    decreases |bits|
  {
    if bits != [] {
      StepDivides(c, bits[0]);
      StepParity(ByteBits(c, 8), bits[0]);
      RegisterParity(Step(c, bits[0]), bits[1..]);
    }
  }

  lemma ZeroIsEven()
    ensures !Odd(ByteBits(0, 8))
  {
  }

  /** The checksum has odd weight exactly when the message has. */
  lemma CrcParity(data: Bytes)
    ensures OddWeight([Crc(data)]) == OddWeight(data)
  {
    CrcFeeds(0, data);
    RegisterParity(0, Bits(data));
    ZeroIsEven();
    assert Bits([Crc(data)]) == ByteBits(Crc(data), 8);
    OddCount(ByteBits(Crc(data), 8));
    OddCount(Bits(data));
  }

  // ---------------------------------------------------------------- bursts

  /** All set bits lie in the eight positions from `k`, and there is one. */
  predicate BurstAt(bits: seq<bool>, k: nat) {
    && k + 8 <= |bits|
    && (forall i :: 0 <= i < |bits| && bits[i] ==> k <= i < k + 8)
    && (exists i :: 0 <= i < |bits| && bits[i])
  }

  predicate Burst(data: Bytes) {
    exists k :: 0 <= k <= |Bits(data)| && BurstAt(Bits(data), k)
  }

  function Pack(w: seq<bool>): byte
    requires |w| == 8
  {
    (if w[0] then 0x80 else 0) | (if w[1] then 0x40 else 0) | (if w[2] then 0x20 else 0)
    | (if w[3] then 0x10 else 0) | (if w[4] then 0x08 else 0) | (if w[5] then 0x04 else 0)
    | (if w[6] then 0x02 else 0) | (if w[7] then 0x01 else 0)
  }

  lemma PackBits(w: seq<bool>)
    requires |w| == 8
    ensures ByteBits(Pack(w), 8) == w
  {
    ByteBitsAre(Pack(w));
  }

  lemma ShiftZero(c: byte)
    ensures Shift(c) == 0 <==> c == 0
  {
  }

  lemma {:induction false} IterateZero(c: byte, n: nat)
    ensures Iterate(Shift, c, n) == 0 <==> c == 0
    decreases n
  {
    if n > 0 {
      ShiftZero(c);
      IterateZero(Shift(c), n - 1);
    }
  }

  lemma PlusZero(c: byte, b: byte)
    ensures Plus(c, b) == 0 <==> c == b
  {
  }

  lemma AbsorbZero(c: byte, b: byte)
    ensures Absorb(c, b) == 0 <==> c == b
  {
    PlusZero(c, b);
    IterateZero(Plus(c, b), 8);
  }

  lemma StepFalse(c: byte)
    ensures Step(c, false) == 0 <==> c == 0
  {
  }

  lemma {:induction false} FeedZeros(c: byte, bits: seq<bool>)
    requires AllFalse(bits)
    ensures Fold(Step, c, bits) == 0 <==> c == 0
    decreases |bits|
  {
    if bits != [] {
      StepFalse(c);
      FeedZeros(Step(c, false), bits[1..]);
    }
  }

  lemma WindowNonzero(w: seq<bool>, i: nat)
    requires |w| == 8 && i < 8 && w[i]
    ensures Fold(Step, 0, w) != 0
  {
    PackBits(w);
    AbsorbFeeds(0, Pack(w));
    AbsorbZero(0, Pack(w));
    ByteBitsAre(0);
  }

  ghost predicate AllFalse(bits: seq<bool>) {
    forall i :: 0 <= i < |bits| ==> !bits[i]
  }

  lemma RegisterBurst(before: seq<bool>, w: seq<bool>, after: seq<bool>)
    requires AllFalse(before) && AllFalse(after) && |w| == 8 && !AllFalse(w)
    ensures Fold(Step, 0, before + (w + after)) != 0
  {
    FoldConcat(Step, 0, before, w + after);
    FeedZeros(0, before);
    FoldConcat(Step, 0, w, after);
    var i :| 0 <= i < 8 && w[i];
    WindowNonzero(w, i);
    FeedZeros(Fold(Step, 0, w), after);
  }

  /** A burst of at most eight bits leaves a non-zero checksum. */
  lemma CrcBurst(data: Bytes)
    requires Burst(data)
    ensures Crc(data) != 0
  {
    var bits := Bits(data);
    var k :| 0 <= k <= |bits| && BurstAt(bits, k);
    var before, w, after := bits[..k], bits[k..k + 8], bits[k + 8..];
    assert bits == before + (w + after);
    assert !AllFalse(w) by {
      var i :| 0 <= i < |bits| && bits[i];
      assert w[i - k];
    }
    RegisterBurst(before, w, after);
    CrcFeeds(0, data);
  }

  // ---------------------------------------------------------------- codewords

  /** A message followed by its checksum has checksum 0, and only then. */
  lemma Codeword(data: Bytes, c: byte)
    ensures Crc(data + [c]) == 0 <==> c == Crc(data)
  {
    FoldConcat(Absorb, 0, data, [c]);
    AbsorbZero(Crc(data), c);
  }

  /** The errors the checksum always detects. */
  predicate Detectable(e: Bytes) {
    OddWeight(e) || Burst(e)
  }

  lemma DetectableNonzero(e: Bytes)
    requires Detectable(e)
    ensures Crc(e) != 0
  {
    if OddWeight(e) {
      CrcParity(e);
      ZeroIsEven();
      assert Bits([0]) == ByteBits(0, 8);
      OddCount(ByteBits(0, 8));
    } else {
      CrcBurst(e);
    }
  }

  /** A codeword hit by a detectable error is not a codeword. */
  lemma CrcDetects(word: Bytes, e: Bytes)
    requires |word| == |e| && Crc(word) == 0 && Detectable(e)
    ensures Crc(Xor(word, e)) != 0
  {
    CrcLinear(word, e);
    DetectableNonzero(e);
    PlusZero(0, Crc(e));
  }
}
