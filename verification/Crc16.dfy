/**
 The bitwise CRC-16 (polynomial 0x8005) that the tracing wrapper computes over message data,
 and what errors it detects.
 */
module Crc16 {
  import opened Messages
  import opened Words16

  // ---- the register ----

  /** The bits of a 16-bit word, the most significant first. */
  type Word16 = w: seq<bool> | |w| == 16 witness seq(16, _ => false)

  function Zeros(n: nat): seq<bool> { seq(n, _ => false) }

  const ZERO: Word16 := Zeros(16)

  /** 0x8005 */
  const POLYNOMIAL: Word16 := [true] + Zeros(12) + [true, false, true]

  function Xor(a: seq<bool>, b: seq<bool>): (r: seq<bool>)
    requires |a| == |b|
    ensures |r| == |a|
  {
    seq(|a|, i requires 0 <= i < |a| && i < |b| => a[i] != b[i])
  }

  /** One step: the register moves up by one bit, and what falls out at the top decides the feedback. */
  function Next(out: Word16, bit: bool): Word16 {
    var moved := out[1..] + [bit];
    if out[0] then Xor(moved, POLYNOMIAL) else moved
  }

  function Run(out: Word16, bits: seq<bool>): Word16 {
    if bits == [] then out else Next(Run(out, bits[..|bits| - 1]), bits[|bits| - 1])
  }

  /** A byte shifted down by k bits. */
  function ShiftedDown(b: nat, k: nat): nat { if k == 0 then b else ShiftedDown(b, k - 1) / 2 }

  /** Bit k of a byte, the least significant first. */
  function Bit(b: byte, k: nat): bool { ShiftedDown(b, k) % 2 == 1 }

  /** The bits in the order in which they are processed. */
  function BitsOf(data: seq<byte>): (r: seq<bool>)
    ensures |r| == 8 * |data|
  {
    seq(8 * |data|, i requires 0 <= i < 8 * |data| => Bit(data[i / 8], i % 8))
  }

  function Reversed(w: Word16): Word16 { seq(16, i requires 0 <= i < 16 => w[15 - i]) }

  /** What gen_crc16 computes: the data, 16 bits to push it out, and the reversal. */
  function Crc(data: seq<byte>): Word16 { Reversed(Run(ZERO, BitsOf(data) + Zeros(16))) }

  lemma RunOne(out: Word16, bits: seq<bool>, bit: bool)
    ensures Run(out, bits + [bit]) == Next(Run(out, bits), bit)
  {
    assert (bits + [bit])[..|bits|] == bits;
  }

  lemma BitAt(data: seq<byte>, pos: nat, k: nat)
    requires pos < |data| && k < 8
    ensures BitsOf(data)[..8 * pos + k + 1] == BitsOf(data)[..8 * pos + k] + [Bit(data[pos], k)]
  {
    assert (8 * pos + k) / 8 == pos && (8 * pos + k) % 8 == k;
  }

  lemma RunBit(data: seq<byte>, pos: nat, k: nat, done: nat)
    requires pos < |data| && k < 8 && done == 8 * pos + k
    ensures After(data, done + 1) == Next(After(data, done), Bit(data[pos], k))
  {
    BitAt(data, pos, k);
    RunOne(ZERO, BitsOf(data)[..8 * pos + k], Bit(data[pos], k));
  }

  /** The register after the first n bits of the data. */
  function After(data: seq<byte>, n: nat): Word16
    requires n <= 8 * |data|
  {
    Run(ZERO, BitsOf(data)[..n])
  }

  lemma AfterAll(data: seq<byte>)
    ensures After(data, 8 * |data|) == Run(ZERO, BitsOf(data))
  {
    assert BitsOf(data)[..8 * |data|] == BitsOf(data);
  }

  /** gen_crc16 */
  method GenCrc16(data: seq<byte>) returns (crc: Word16)
    ensures crc == Crc(data)
  {
    var out := ReadBits(data);
    NoZeros(BitsOf(data));
    for i := 0 to 16
      invariant out == Run(ZERO, BitsOf(data) + Zeros(i))
    {
      OneMoreZero(BitsOf(data), i);
      out := PushBit(out, false);
    }
    crc := ReverseBits(out);
  }

  lemma NoZeros(bits: seq<bool>)
    ensures bits + Zeros(0) == bits
  {}

  lemma OneMoreZero(bits: seq<bool>, i: nat)
    ensures Run(ZERO, bits + Zeros(i + 1)) == Next(Run(ZERO, bits + Zeros(i)), false)
  {
    RunOne(ZERO, bits + Zeros(i), false);
    assert bits + Zeros(i) + [false] == bits + Zeros(i + 1);
  }

  /** The first loop: all bits of the data. */
  method ReadBits(data: seq<byte>) returns (out: Word16)
    ensures out == Run(ZERO, BitsOf(data))
  {
    out := ZERO;
    var bitsRead: nat, pos: nat, size := 0, 0, |data|;
    ghost var done: nat := 0;
    while size > 0
      invariant 0 <= size == |data| - pos && bitsRead < 8 && (size == 0 ==> bitsRead == 0)
      invariant done == 8 * pos + bitsRead && out == After(data, done)
      decreases 8 * |data| - done
    {
      RunBit(data, pos, bitsRead, done);
      done := done + 1;
      out := PushBit(out, Bit(data[pos], bitsRead));
      bitsRead := bitsRead + 1;
      if bitsRead > 7 {
        bitsRead := 0;
        pos := pos + 1;
        size := size - 1;
      }
    }
    AfterAll(data);
  }

  /** The body of the first two loops, without the bookkeeping. */
  method PushBit(before: Word16, bit: bool) returns (out: Word16)
    ensures out == Next(before, bit)
  {
    out := before;
    var flag := out[0];
    out := out[1..] + [false];
    out := out[15 := bit];
    if flag { out := Xor(out, POLYNOMIAL); }
  }

  /** The last loop: from the top bit of out down, and from the bottom bit of the result up. */
  method ReverseBits(out: Word16) returns (crc: Word16)
    ensures crc == Reversed(out)
  {
    crc := ZERO;
    for i := 0 to 16
      invariant forall k :: 16 - i <= k < 16 ==> crc[k] == out[15 - k]
      invariant forall k :: 0 <= k < 16 - i ==> !crc[k]
    {
      if out[i] { crc := crc[15 - i := true]; }
    }
  }

  // ---- the same on 16-bit words, as the loops have it ----

  function WordBits(w: bv16): Word16 { seq(16, i requires 0 <= i < 16 => BitOfWord(w, i)) }

  function ShiftInAll(out: bv16, bits: seq<bool>): bv16 {
    if bits == [] then out else ShiftIn(ShiftInAll(out, bits[..|bits| - 1]), bits[|bits| - 1])
  }

  /** Bit k of a byte, the least significant first. */
  function BitOfByte(x: bv8, k: nat): bool
    requires k < 8
  {
    match k
    case 0 => x & 1 != 0
    case 1 => x & 2 != 0
    case 2 => x & 4 != 0
    case 3 => x & 8 != 0
    case 4 => x & 0x10 != 0
    case 5 => x & 0x20 != 0
    case 6 => x & 0x40 != 0
    case 7 => x & 0x80 != 0
  }

  function BitsOfBytes(data: seq<bv8>): (r: seq<bool>)
    ensures |r| == 8 * |data|
  {
    seq(8 * |data|, i requires 0 <= i < 8 * |data| => BitOfByte(data[i / 8], i % 8))
  }

  function CrcWord(data: seq<bv8>): bv16 { Reverse(ShiftInAll(0, BitsOfBytes(data) + Zeros(16)), 16) }

  function Bytes(data: seq<bv8>): seq<byte> {
    seq(|data|, i requires 0 <= i < |data| => data[i] as byte)
  }

  lemma NextBit(b: Word16, bit: bool, i: nat)
    requires i < 16
    ensures Next(b, bit)[i] == ((if i < 15 then b[i + 1] else bit) != (b[0] && (i == 0 || i == 13 || i == 15)))
  {
    assert (b[1..] + [bit])[i] == if i < 15 then b[i + 1] else bit;
  }

  lemma NextIsShiftIn(out: bv16, bit: bool)
    ensures Next(WordBits(out), bit) == WordBits(ShiftIn(out, bit))
  {
    ShiftIn0(out, bit);
    ShiftIn13(out, bit);
    ShiftIn15(out, bit);
    forall i: nat | i < 16 ensures Next(WordBits(out), bit)[i] == WordBits(ShiftIn(out, bit))[i] {
      NextBit(WordBits(out), bit, i);
      if i != 0 && i != 13 && i != 15 { ShiftInBit(out, bit, i); }
    }
  }

  lemma {:induction false} RunIsShiftIn(out: bv16, bits: seq<bool>)
    ensures Run(WordBits(out), bits) == WordBits(ShiftInAll(out, bits))
  {
    if bits != [] {
      var n := |bits| - 1;
      RunIsShiftIn(out, bits[..n]);
      NextIsShiftIn(ShiftInAll(out, bits[..n]), bits[n]);
    }
  }

  lemma ReversedIsReverse(w: bv16)
    ensures Reversed(WordBits(w)) == WordBits(Reverse(w, 16))
  {
    forall i: nat | i < 16 ensures Reversed(WordBits(w))[i] == WordBits(Reverse(w, 16))[i] {
      ReverseBit(w, 16, 15 - i);
    }
  }

  lemma Halved(x: bv8)
    ensures (x >> 1) as nat == x as nat / 2 && (x as nat % 2 == 1 <==> x & 1 != 0)
  {}

  /** Shifting down moves every bit one place. */
  lemma BitShifted(x: bv8, k: nat)
    requires 0 < k < 8
    ensures BitOfByte(x, k) == BitOfByte(x >> 1, k - 1)
  {}

  lemma {:induction false} ShiftedDownLast(b: nat, k: nat)
    requires k > 0
    ensures ShiftedDown(b, k) == ShiftedDown(b / 2, k - 1)
  {
    if k > 1 { ShiftedDownLast(b, k - 1); }
  }

  lemma {:induction false} BitIsBit(x: bv8, k: nat)
    requires k < 8
    ensures Bit(x as byte, k) == BitOfByte(x, k)
  {
    Halved(x);
    if k > 0 {
      ShiftedDownLast(x as nat, k);
      BitShifted(x, k);
      BitIsBit(x >> 1, k - 1);
    }
  }

  lemma SameBits(data: seq<bv8>)
    ensures BitsOf(Bytes(data)) == BitsOfBytes(data)
  {
    forall i | 0 <= i < 8 * |data| ensures BitsOf(Bytes(data))[i] == BitsOfBytes(data)[i] {
      BitIsBit(data[i / 8], i % 8);
    }
  }

  /** The CRC is that of the shifts and exclusive ors with 0x8005 on 16-bit words, bytes entering low bit first. */
  lemma CrcIsWord(data: seq<bv8>)
    ensures Crc(Bytes(data)) == WordBits(CrcWord(data))
  {
    var bits := BitsOfBytes(data) + Zeros(16);
    SameBits(data);
    forall i: nat | i < 16 ensures !BitOfWord(0, i) {}
    assert WordBits(0) == ZERO;
    RunIsShiftIn(0, bits);
    ReversedIsReverse(ShiftInAll(0, bits));
  }

  /** The register after a single one and n zeros. */
  function AfterOne(n: nat): bv16 { if n == 0 then 1 else ShiftIn(AfterOne(n - 1), false) }

  lemma {:induction false} OneThenZeros(n: nat)
    ensures ShiftInAll(0, [true] + Zeros(n)) == AfterOne(n)
  {
    if n == 0 {
      assert ([true] + Zeros(0))[..0] == [];
    } else {
      OneThenZeros(n - 1);
      assert ([true] + Zeros(n))[..n] == [true] + Zeros(n - 1);
    }
  }

  lemma AfterOneZeros()
    ensures AfterOne(23) == 0x8303
  {
    assert AfterOne(2) == 0x4 && AfterOne(4) == 0x10 && AfterOne(6) == 0x40;
    assert AfterOne(8) == 0x100 && AfterOne(10) == 0x400 && AfterOne(12) == 0x1000;
    assert AfterOne(14) == 0x4000 && AfterOne(16) == 0x8005 && AfterOne(18) == 0x801B;
    assert AfterOne(20) == 0x8063 && AfterOne(22) == 0x8183 && AfterOne(23) == 0x8303;
  }

  lemma ReversedWord()
    ensures Reverse(0x8303, 16) == 0xC0C1
  {
    assert Reverse(0xC000, 2) == 0x3 && Reverse(0x3000, 4) == 0xC;
    assert Reverse(0xC00, 6) == 0x30 && Reverse(0x300, 8) == 0xC0;
    assert Reverse(0xC0C0, 10) == 0x303 && Reverse(0x3030, 12) == 0xC0C;
    assert Reverse(0xC0C, 14) == 0x3030 && Reverse(0x8303, 16) == 0xC0C1;
  }

  lemma ByteOne()
    ensures BitsOfBytes([1]) + Zeros(16) == [true] + Zeros(23)
  {
    var bits := BitsOfBytes([1]);
    assert bits[0] && !bits[1] && !bits[2] && !bits[3] && !bits[4] && !bits[5] && !bits[6] && !bits[7];
  }

  lemma WordOfByteOne()
    ensures CrcWord([1]) == 0xC0C1
  {
    ByteOne();
    OneThenZeros(23);
    AfterOneZeros();
    ReversedWord();
  }

  /** For a single byte 0x01 the CRC is 0xC0C1. */
  lemma KnownAnswer()
    ensures CrcWord([1]) == 0xC0C1 && Crc([1]) == WordBits(0xC0C1)
  {
    var data: seq<bv8> := [1];
    WordOfByteOne();
    CrcIsWord(data);
    assert Bytes(data) == [1];
  }

  // ---- two inputs differ by their bitwise difference ----

  lemma NextLinear(x: Word16, y: Word16, a: bool, b: bool)
    ensures Next(Xor(x, y), a != b) == Xor(Next(x, a), Next(y, b))
  {}

  lemma {:induction false} RunLinear(x: Word16, y: Word16, a: seq<bool>, b: seq<bool>)
    requires |a| == |b|
    ensures Run(Xor(x, y), Xor(a, b)) == Xor(Run(x, a), Run(y, b))
  {
    if a != [] {
      var n := |a| - 1;
      assert Xor(a, b)[..n] == Xor(a[..n], b[..n]);
      RunLinear(x, y, a[..n], b[..n]);
      NextLinear(Run(x, a[..n]), Run(y, b[..n]), a[n], b[n]);
    }
  }

  lemma {:induction false} RunConcat(x: Word16, a: seq<bool>, b: seq<bool>)
    ensures Run(x, a + b) == Run(Run(x, a), b)
  {
    if b == [] {
      assert a + b == a;
    } else {
      var n := |b| - 1;
      assert (a + b)[..|a| + n] == a + b[..n];
      RunConcat(x, a, b[..n]);
    }
  }

  lemma ZeroStepInjective(x: Word16)
    ensures Next(x, false) == ZERO <==> x == ZERO
  {
    var y := Next(x, false);
    if y == ZERO {
      assert y[15] == x[0];
      forall i | 0 < i < 16 ensures !x[i] { assert y[i - 1] == x[i]; }
      assert x == ZERO;
    }
    if x == ZERO { assert y == ZERO; }
  }

  /** Zeros neither bring about a difference nor hide one. */
  lemma {:induction false} ZerosKeep(x: Word16, n: nat)
    ensures Run(x, Zeros(n)) == ZERO <==> x == ZERO
  {
    if n > 0 {
      assert Zeros(n)[..n - 1] == Zeros(n - 1);
      ZerosKeep(x, n - 1);
      ZeroStepInjective(Run(x, Zeros(n - 1)));
    }
  }

  lemma XorZeroIff(a: seq<bool>, b: seq<bool>)
    requires |a| == |b|
    ensures Xor(a, b) == Zeros(|a|) <==> a == b
  {
    if Xor(a, b) == Zeros(|a|) {
      forall i | 0 <= i < |a| ensures a[i] == b[i] { assert Xor(a, b)[i] == Zeros(|a|)[i]; }
    }
  }

  lemma ReversedInjective(x: Word16, y: Word16)
    ensures Reversed(x) == Reversed(y) <==> x == y
  {
    if Reversed(x) == Reversed(y) {
      forall i | 0 <= i < 16 ensures x[i] == y[i] { assert Reversed(x)[15 - i] == Reversed(y)[15 - i]; }
    }
  }

  /** An error goes unnoticed exactly if the register maps the difference to zero. */
  lemma UnnoticedIff(a: seq<byte>, b: seq<byte>)
    requires |a| == |b|
    ensures Crc(a) == Crc(b) <==> Run(ZERO, Xor(BitsOf(a), BitsOf(b))) == ZERO
  {
    var x, y, z := BitsOf(a), BitsOf(b), Zeros(16);
    var r, s := Run(ZERO, x + z), Run(ZERO, y + z);
    ReversedInjective(r, s);
    RunLinear(ZERO, ZERO, x + z, y + z);
    XorZeroIff(r, s);
    assert Xor(ZERO, ZERO) == ZERO && Xor(x + z, y + z) == Xor(x, y) + z;
    RunConcat(ZERO, Xor(x, y), z);
    ZerosKeep(Run(ZERO, Xor(x, y)), 16);
  }

  // ---- bursts ----

  /** The first 16 bits just move in. */
  lemma {:induction false} FirstBits(w: seq<bool>)
    requires |w| <= 16
    ensures Run(ZERO, w) == Zeros(16 - |w|) + w
  {
    if w != [] {
      FirstBits(w[..|w| - 1]);
    }
  }

  /** The polynomial with its leading term, as a difference of 17 bits. */
  const GENERATOR: seq<bool> := [true] + POLYNOMIAL

  /** x^16 + x^15 + x^2 + 1, written out. */
  const X16_X15_X2_1: seq<bool> := [true, true, false, false, false, false, false, false, false,
                                    false, false, false, false, false, true, false, true]

  lemma GeneratorBits()
    ensures GENERATOR == X16_X15_X2_1
  {}

  /** Of all differences within 17 bits, only the generator itself is mapped to zero. */
  lemma WindowOf17(w: seq<bool>)
    requires |w| == 17
    ensures Run(ZERO, w) == ZERO <==> w == Zeros(17) || w == GENERATOR
  {
    RunOf17(w);
    HeadAndRest(w);
    XorZeroIff(w[1..], POLYNOMIAL);
  }

  lemma RunOf17(w: seq<bool>)
    requires |w| == 17
    ensures Run(ZERO, w) == if w[0] then Xor(w[1..], POLYNOMIAL) else w[1..]
  {
    First16(w[..16]);
    MovedWindow(w);
  }

  lemma First16(w: seq<bool>)
    requires |w| == 16
    ensures Run(ZERO, w) == w
  {
    FirstBits(w);
    assert Zeros(0) + w == w;
  }

  lemma MovedWindow(w: seq<bool>)
    requires |w| == 17
    ensures Next(w[..16], w[16]) == if w[0] then Xor(w[1..], POLYNOMIAL) else w[1..]
  {
    assert w[..16][1..] + [w[16]] == w[1..];
  }

  lemma HeadAndRest(w: seq<bool>)
    requires |w| == 17
    ensures w == GENERATOR <==> w[0] && w[1..] == POLYNOMIAL
    ensures w == Zeros(17) <==> !w[0] && w[1..] == ZERO
  {
    assert w == [w[0]] + w[1..] && GENERATOR[1..] == POLYNOMIAL;
    assert Zeros(17) == [false] + ZERO;
  }

  lemma Surrounded(p: nat, w: seq<bool>, q: nat)
    ensures Run(ZERO, Zeros(p) + w + Zeros(q)) == ZERO <==> Run(ZERO, w) == ZERO
  {
    RunConcat(ZERO, Zeros(p) + w, Zeros(q));
    RunConcat(ZERO, Zeros(p), w);
    ZerosKeep(ZERO, p);
    ZerosKeep(Run(ZERO, w), q);
  }

  /**
   For inputs of equal length that differ only within 17 consecutive bits, the CRCs are equal
   exactly if the inputs are the same or their difference is x^16 + x^15 + x^2 + 1.
   */
  lemma BurstsOf17(a: seq<byte>, b: seq<byte>, p: nat, w: seq<bool>, q: nat)
    requires |a| == |b| && |w| == 17 && Xor(BitsOf(a), BitsOf(b)) == Zeros(p) + w + Zeros(q)
    ensures Crc(a) == Crc(b) <==> a == b || w == X16_X15_X2_1
  {
    UnnoticedIff(a, b);
    Surrounded(p, w, q);
    WindowOf17(w);
    GeneratorBits();
    BitsDetermine(a, b);
    XorZeroIff(BitsOf(a), BitsOf(b));
    var d, zeros := Zeros(p) + w + Zeros(q), Zeros(8 * |a|);
    if d == zeros {
      forall i | 0 <= i < 17 ensures !w[i] { assert d[p + i] == zeros[p + i]; }
    }
    if w == Zeros(17) { assert d == zeros; }
  }

  /** Every burst of up to 16 bits is detected. */
  lemma BurstsDetected(a: seq<byte>, b: seq<byte>, p: nat, w: seq<bool>, q: nat)
    requires |a| == |b| && |w| <= 16 && Xor(BitsOf(a), BitsOf(b)) == Zeros(p) + w + Zeros(q)
    ensures Crc(a) == Crc(b) <==> a == b
  {
    UnnoticedIff(a, b);
    Surrounded(p, w, q);
    FirstBits(w);
    BitsDetermine(a, b);
    XorZeroIff(BitsOf(a), BitsOf(b));
    var d, zeros := Zeros(p) + w + Zeros(q), Zeros(8 * |a|);
    if Run(ZERO, w) == ZERO {
      forall i | 0 <= i < |w| ensures !w[i] { assert (Zeros(16 - |w|) + w)[16 - |w| + i] == ZERO[16 - |w| + i]; }
      assert d == zeros;
    }
    if d == zeros {
      forall i | 0 <= i < |w| ensures !w[i] { assert d[p + i] == zeros[p + i]; }
    }
  }

  lemma {:induction false} ShiftedAgree(a: byte, b: byte, k: nat, top: nat)
    requires k <= top && ShiftedDown(a, top) == ShiftedDown(b, top)
    requires forall i :: k <= i < top ==> Bit(a, i) == Bit(b, i)
    ensures ShiftedDown(a, k) == ShiftedDown(b, k)
    decreases top - k
  {
    if k < top {
      ShiftedAgree(a, b, k + 1, top);
      assert Bit(a, k) == Bit(b, k);
    }
  }

  /** Different data have different bits. */
  lemma BitsDetermine(a: seq<byte>, b: seq<byte>)
    requires |a| == |b|
    ensures BitsOf(a) == BitsOf(b) <==> a == b
  {
    if BitsOf(a) == BitsOf(b) {
      forall j | 0 <= j < |a| ensures a[j] == b[j] {
        forall k | 0 <= k < 8 ensures Bit(a[j], k) == Bit(b[j], k) {
          BitAt(a, j, k);
          BitAt(b, j, k);
          assert BitsOf(a)[8 * j + k] == BitsOf(b)[8 * j + k];
          assert BitsOf(a)[..8 * j + k + 1][8 * j + k] == Bit(a[j], k);
          assert BitsOf(b)[..8 * j + k + 1][8 * j + k] == Bit(b[j], k);
        }
        ByteGone(a[j]);
        ByteGone(b[j]);
        ShiftedAgree(a[j], b[j], 0, 8);
      }
    }
  }

  lemma ByteGone(b: byte)
    ensures ShiftedDown(b, 8) == 0
  {
    assert ShiftedDown(b, 1) < 128 && ShiftedDown(b, 2) < 64 && ShiftedDown(b, 3) < 32 && ShiftedDown(b, 4) < 16;
    assert ShiftedDown(b, 5) < 8 && ShiftedDown(b, 6) < 4 && ShiftedDown(b, 7) < 2;
  }

  // ---- errors in an odd number of bits ----

  function Odd(bits: seq<bool>): bool {
    if bits == [] then false else Odd(bits[..|bits| - 1]) != bits[|bits| - 1]
  }

  lemma {:induction false} OddConcat(a: seq<bool>, b: seq<bool>)
    ensures Odd(a + b) == (Odd(a) != Odd(b))
  {
    if b == [] {
      assert a + b == a;
    } else {
      var n := |b| - 1;
      assert (a + b)[..|a| + n] == a + b[..n];
      OddConcat(a, b[..n]);
    }
  }

  lemma {:induction false} OddXor(a: seq<bool>, b: seq<bool>)
    requires |a| == |b|
    ensures Odd(Xor(a, b)) == (Odd(a) != Odd(b))
  {
    if a != [] {
      var n := |a| - 1;
      assert Xor(a, b)[..n] == Xor(a[..n], b[..n]);
      OddXor(a[..n], b[..n]);
    }
  }

  lemma {:induction false} ZerosEven(n: nat)
    ensures !Odd(Zeros(n))
  {
    if n > 0 {
      assert Zeros(n)[..n - 1] == Zeros(n - 1);
      ZerosEven(n - 1);
    }
  }

  lemma OddOne(b: bool)
    ensures Odd([b]) == b
  {
    assert [b][..0] == [];
  }

  lemma PolynomialOdd()
    ensures Odd(POLYNOMIAL)
  {
    OddConcat([true] + Zeros(12), [true, false, true]);
    OddConcat([true], Zeros(12));
    ZerosEven(12);
    OddOne(true);
    OddOne(false);
    OddConcat([true], [false]);
    OddConcat([true] + [false], [true]);
    assert [true] + [false] + [true] == [true, false, true];
  }

  /** As the generator has an even number of terms, a step adds the parity of the bit. */
  lemma NextParity(x: Word16, bit: bool)
    ensures Odd(Next(x, bit)) == (Odd(x) != bit)
  {
    var moved := x[1..] + [bit];
    assert x == [x[0]] + x[1..];
    OddConcat([x[0]], x[1..]);
    OddConcat(x[1..], [bit]);
    OddOne(x[0]);
    OddOne(bit);
    PolynomialOdd();
    OddXor(moved, POLYNOMIAL);
  }

  lemma {:induction false} RunParity(x: Word16, bits: seq<bool>)
    ensures Odd(Run(x, bits)) == (Odd(x) != Odd(bits))
  {
    if bits != [] {
      var n := |bits| - 1;
      RunParity(x, bits[..n]);
      NextParity(Run(x, bits[..n]), bits[n]);
    }
  }

  /** Every error in an odd number of bits is detected. */
  lemma OddErrorsDetected(a: seq<byte>, b: seq<byte>)
    requires |a| == |b| && Odd(Xor(BitsOf(a), BitsOf(b)))
    ensures Crc(a) != Crc(b)
  {
    UnnoticedIff(a, b);
    RunParity(ZERO, Xor(BitsOf(a), BitsOf(b)));
    ZerosEven(16);
  }

  // ---- several blocks ----

  /** The XOR of the CRCs of the blocks. */
  function CrcOfAll(blocks: seq<seq<byte>>): Word16 {
    if blocks == [] then ZERO else Xor(CrcOfAll(blocks[..|blocks| - 1]), Crc(blocks[|blocks| - 1]))
  }

  /** crc16_vect, for blocks that are given by their places in the buffer. */
  method Crc16Vect(data: seq<byte>, counts: seq<nat>, displs: seq<nat>) returns (result: Word16)
    requires |counts| == |displs| && forall i :: 0 <= i < |counts| ==> displs[i] + counts[i] <= |data|
    ensures result == CrcOfAll(BlocksOf(data, counts, displs))
  {
    result := ZERO;
    ghost var blocks := BlocksOf(data, counts, displs);
    for i := 0 to |counts|
      invariant result == CrcOfFirst(blocks, i)
    {
      var block := data[displs[i]..displs[i] + counts[i]];
      var tmp := GenCrc16(block);
      CrcOfOneMore(blocks, i, block);
      result := Xor(result, tmp);
    }
    assert blocks[..|counts|] == blocks;
  }

  function CrcOfFirst(blocks: seq<seq<byte>>, i: nat): Word16
    requires i <= |blocks|
  {
    CrcOfAll(blocks[..i])
  }

  lemma CrcOfOneMore(blocks: seq<seq<byte>>, i: nat, block: seq<byte>)
    requires i < |blocks| && block == blocks[i]
    ensures CrcOfFirst(blocks, i + 1) == Xor(CrcOfFirst(blocks, i), Crc(block))
  {
    assert blocks[..i + 1][..i] == blocks[..i];
  }

  function BlocksOf(data: seq<byte>, counts: seq<nat>, displs: seq<nat>): (r: seq<seq<byte>>)
    requires |counts| == |displs| && forall i :: 0 <= i < |counts| ==> displs[i] + counts[i] <= |data|
    ensures |r| == |counts|
  {
    seq(|counts|, i requires 0 <= i < |counts| && displs[i] + counts[i] <= |data| =>
      data[displs[i]..displs[i] + counts[i]])
  }

  lemma {:induction false} AllConcat(a: seq<seq<byte>>, b: seq<seq<byte>>)
    ensures CrcOfAll(a + b) == Xor(CrcOfAll(a), CrcOfAll(b))
  {
    if b == [] {
      assert a + b == a;
      assert Xor(CrcOfAll(a), ZERO) == CrcOfAll(a);
    } else {
      var n := |b| - 1;
      assert (a + b)[..|a| + n] == a + b[..n];
      AllConcat(a, b[..n]);
      XorAssociative(CrcOfAll(a), CrcOfAll(b[..n]), Crc(b[n]));
    }
  }

  lemma XorAssociative(a: Word16, b: Word16, c: Word16)
    ensures Xor(Xor(a, b), c) == Xor(a, Xor(b, c))
  {}

  lemma XorCancels(a: Word16, x: Word16, y: Word16)
    ensures Xor(a, x) == Xor(a, y) <==> x == y
    ensures Xor(a, x) == Xor(x, a)
  {
    if Xor(a, x) == Xor(a, y) {
      forall i | 0 <= i < 16 ensures x[i] == y[i] { assert Xor(a, x)[i] == Xor(a, y)[i]; }
    }
  }

  /** A change of one block shows exactly if the CRC of that block shows it. */
  lemma OneBlockChanged(blocks: seq<seq<byte>>, k: nat, block: seq<byte>)
    requires k < |blocks|
    ensures CrcOfAll(blocks[k := block]) == CrcOfAll(blocks) <==> Crc(block) == Crc(blocks[k])
  {
    AroundBlock(blocks, k);
    AroundBlock(blocks[k := block], k);
    var rest := Xor(CrcOfAll(blocks[..k]), CrcOfAll(blocks[k + 1..]));
    assert blocks[k := block][..k] == blocks[..k] && blocks[k := block][k + 1..] == blocks[k + 1..];
    XorCancels(rest, Crc(block), Crc(blocks[k]));
  }

  lemma AroundBlock(blocks: seq<seq<byte>>, k: nat)
    requires k < |blocks|
    ensures CrcOfAll(blocks) == Xor(Xor(CrcOfAll(blocks[..k]), CrcOfAll(blocks[k + 1..])), Crc(blocks[k]))
  {
    var a, x, b := blocks[..k], blocks[k], blocks[k + 1..];
    assert blocks == a + [x] + b && (a + [x])[..k] == a;
    AllConcat(a + [x], b);
    XorAssociative(CrcOfAll(a), Crc(x), CrcOfAll(b));
    XorAssociative(CrcOfAll(a), CrcOfAll(b), Crc(x));
    XorCancels(Crc(x), CrcOfAll(b), CrcOfAll(b));
  }

  /** Exchanging two blocks never shows. */
  lemma SwapUnnoticed(blocks: seq<seq<byte>>, j: nat, k: nat)
    requires j < k < |blocks|
    ensures CrcOfAll(blocks[j := blocks[k]][k := blocks[j]]) == CrcOfAll(blocks)
  {
    var once := blocks[j := blocks[k]];
    var twice := once[k := blocks[j]];
    AroundBlock(blocks, j);
    AroundBlock(once, j);
    AroundBlock(once, k);
    AroundBlock(twice, k);
    assert once[..j] == blocks[..j] && once[j + 1..] == blocks[j + 1..];
    assert twice[..k] == once[..k] && twice[k + 1..] == once[k + 1..];
    var p := Xor(CrcOfAll(blocks[..j]), CrcOfAll(blocks[j + 1..]));
    var q := Xor(CrcOfAll(once[..k]), CrcOfAll(once[k + 1..]));
    SwapCancels(p, q, Crc(blocks[j]), Crc(blocks[k]));
  }

  lemma SwapCancels(p: Word16, q: Word16, x: Word16, y: Word16)
    requires Xor(p, y) == Xor(q, y)
    ensures Xor(q, x) == Xor(p, x)
  {
    XorCancels(y, p, q);
    XorCancels(p, y, y);
    XorCancels(q, y, y);
  }
}
