/** 16-bit words as the loops of gen_crc16 handle them: masks, shifts and exclusive ors. */
module Words16 {

  /** 0x8000 shifted down by i. */
  function Mask(i: nat): bv16 { if i == 0 then 0x8000 else Mask(i - 1) >> 1 }

  /** Bit i of a word, the most significant first. */
  function BitOfWord(w: bv16, i: nat): bool { w & Mask(i) != 0 }

  /** Shift, set the low bit, and apply the polynomial if the top bit was set before. */
  function ShiftIn(out: bv16, bit: bool): bv16 {
    if out >> 15 == 1 then Moved(out, bit) ^ 0x8005 else Moved(out, bit)
  }

  function Moved(out: bv16, bit: bool): bv16 { (out << 1) | (if bit then 1 else 0) }

  /** The first n bits of a word, the first of them lowest. */
  function Reverse(w: bv16, n: nat): bv16
    decreases n
  {
    if n == 0 then 0 else Moved(Reverse(w << 1, n - 1), w >> 15 == 1)
  }

  // ---- masks ----

  lemma Masks()
    ensures Mask(0) == 0x8000 && Mask(1) == 0x4000 && Mask(2) == 0x2000 && Mask(3) == 0x1000
    ensures Mask(4) == 0x800 && Mask(5) == 0x400 && Mask(6) == 0x200 && Mask(7) == 0x100
    ensures Mask(8) == 0x80 && Mask(9) == 0x40 && Mask(10) == 0x20 && Mask(11) == 0x10
    ensures Mask(12) == 8 && Mask(13) == 4 && Mask(14) == 2 && Mask(15) == 1
  {
    assert Mask(1) == 0x4000 && Mask(2) == 0x2000;
    assert Mask(3) == 0x1000 && Mask(4) == 0x800;
    assert Mask(5) == 0x400 && Mask(6) == 0x200;
    assert Mask(7) == 0x100 && Mask(8) == 0x80;
    assert Mask(9) == 0x40 && Mask(10) == 0x20;
    assert Mask(11) == 0x10 && Mask(12) == 8;
    assert Mask(13) == 4 && Mask(14) == 2;
    assert Mask(15) == 1;
  }

  lemma NextMask(i: nat)
    ensures Mask(i + 1) == Mask(i) >> 1
  {}

  lemma EvenMask(i: nat)
    requires i < 15
    ensures Mask(i) & 1 == 0
  {
    Masks();
  }

  lemma PlainMask(i: nat)
    requires i < 15 && i != 0 && i != 13
    ensures Mask(i) & 0x8005 == 0
  {
    Masks();
  }

  /** From masks to bit numbers. */
  lemma ByMasks(w: bv16, i: nat, m: bv16, x: bv16, j: nat, next: bv16)
    requires Mask(i) == m && Mask(j) == next && (w & m != 0 <==> x & next != 0)
    ensures BitOfWord(w, i) == BitOfWord(x, j)
  {}

  lemma NoBits(i: nat)
    ensures !BitOfWord(0, i)
  {}

  // ---- moving up ----

  lemma MovedMask(out: bv16, bit: bool, w: bv16, m: bv16, next: bv16)
    requires w == Moved(out, bit) && m & 1 == 0 && next == m >> 1
    ensures w & m != 0 <==> out & next != 0
  {}

  lemma MovedAt(rest: bv16, bit: bool, w: bv16, i: nat, m: bv16, next: bv16)
    requires w == Moved(rest, bit) && Mask(i) == m && Mask(i + 1) == next == m >> 1 && m & 1 == 0
    ensures BitOfWord(w, i) == BitOfWord(rest, i + 1)
  {
    MovedMask(rest, bit, w, m, next);
    ByMasks(w, i, m, rest, i + 1, next);
  }

  lemma MovedBit(rest: bv16, bit: bool, i: nat)
    requires i < 15
    ensures BitOfWord(Moved(rest, bit), i) == BitOfWord(rest, i + 1)
  {
    EvenMask(i);
    NextMask(i);
    MovedAt(rest, bit, Moved(rest, bit), i, Mask(i), Mask(i + 1));
  }

  lemma MovedLow(rest: bv16, bit: bool)
    ensures Moved(rest, bit) & 1 != 0 <==> bit
  {}

  lemma MovedLast(rest: bv16, bit: bool)
    ensures BitOfWord(Moved(rest, bit), 15) == bit
  {
    Masks();
    MovedLow(rest, bit);
  }

  lemma UpMask(w: bv16, m: bv16, next: bv16)
    requires next == m >> 1
    ensures (w << 1) & m != 0 <==> w & next != 0
  {}

  lemma UpAt(w: bv16, up: bv16, k: nat, m: bv16, next: bv16)
    requires up == w << 1 && Mask(k) == m && Mask(k + 1) == next == m >> 1
    ensures BitOfWord(up, k) == BitOfWord(w, k + 1)
  {
    UpMask(w, m, next);
    ByMasks(up, k, m, w, k + 1, next);
  }

  lemma UpBit(w: bv16, k: nat)
    ensures BitOfWord(w << 1, k) == BitOfWord(w, k + 1)
  {
    NextMask(k);
    UpAt(w, w << 1, k, Mask(k), Mask(k + 1));
  }

  lemma TopBit(out: bv16)
    ensures out >> 15 == 1 <==> BitOfWord(out, 0)
  {}

  // ---- the feedback: it reaches the bits 0, 13 and 15 ----

  lemma XorKeeps(x: bv16, m: bv16)
    requires m & 0x8005 == 0
    ensures (x ^ 0x8005) & m == x & m
  {}

  lemma ShiftInKeeps(out: bv16, bit: bool, m: bv16)
    requires m & 0x8005 == 0
    ensures ShiftIn(out, bit) & m == Moved(out, bit) & m
  {
    if out >> 15 == 1 { XorKeeps(Moved(out, bit), m); }
  }

  lemma NotLow(m: bv16)
    requires m & 0x8005 == 0
    ensures m & 1 == 0
  {}

  lemma Same(w: bv16, moved: bv16, m: bv16)
    requires w & m == moved & m
    ensures w & m != 0 <==> moved & m != 0
  {}

  lemma ShiftInMask(out: bv16, bit: bool, w: bv16, moved: bv16, m: bv16, next: bv16)
    requires w == ShiftIn(out, bit) && moved == Moved(out, bit) && m & 0x8005 == 0 && next == m >> 1
    ensures w & m != 0 <==> out & next != 0
  {
    NotLow(m);
    ShiftInKeeps(out, bit, m);
    Same(w, moved, m);
    MovedMask(out, bit, moved, m, next);
  }

  lemma ShiftInAt(out: bv16, bit: bool, w: bv16, i: nat, m: bv16, next: bv16)
    requires w == ShiftIn(out, bit) && Mask(i) == m && Mask(i + 1) == next == m >> 1 && m & 0x8005 == 0
    ensures BitOfWord(w, i) == BitOfWord(out, i + 1)
  {
    ShiftInMask(out, bit, w, Moved(out, bit), m, next);
    ByMasks(w, i, m, out, i + 1, next);
  }

  lemma ShiftInBit(out: bv16, bit: bool, i: nat)
    requires i < 15 && i != 0 && i != 13
    ensures BitOfWord(ShiftIn(out, bit), i) == BitOfWord(out, i + 1)
  {
    PlainMask(i);
    NextMask(i);
    ShiftInAt(out, bit, ShiftIn(out, bit), i, Mask(i), Mask(i + 1));
  }

  lemma Mask0(out: bv16, bit: bool)
    ensures ShiftIn(out, bit) & 0x8000 != 0 <==> (out & 0x4000 != 0) != (out & 0x8000 != 0)
  {}

  lemma Mask13(out: bv16, bit: bool)
    ensures ShiftIn(out, bit) & 4 != 0 <==> (out & 2 != 0) != (out & 0x8000 != 0)
  {}

  lemma Mask15(out: bv16, bit: bool)
    ensures ShiftIn(out, bit) & 1 != 0 <==> bit != (out & 0x8000 != 0)
  {}

  lemma ShiftIn0(out: bv16, bit: bool)
    ensures BitOfWord(ShiftIn(out, bit), 0) == (BitOfWord(out, 1) != BitOfWord(out, 0))
  {
    Masks();
    Mask0(out, bit);
  }

  lemma ShiftIn13(out: bv16, bit: bool)
    ensures BitOfWord(ShiftIn(out, bit), 13) == (BitOfWord(out, 14) != BitOfWord(out, 0))
  {
    Masks();
    Mask13(out, bit);
  }

  lemma ShiftIn15(out: bv16, bit: bool)
    ensures BitOfWord(ShiftIn(out, bit), 15) == (bit != BitOfWord(out, 0))
  {
    Masks();
    Mask15(out, bit);
  }

  // ---- the reversal ----

  /** Bit k of the word becomes bit k from the bottom. */
  lemma {:induction false} ReverseBit(w: bv16, n: nat, k: nat)
    requires k < 16 && n <= 16
    ensures BitOfWord(Reverse(w, n), 15 - k) == (k < n && BitOfWord(w, k))
    decreases n
  {
    if n == 0 {
      NoBits(15 - k);
    } else if k == 0 {
      MovedLast(Reverse(w << 1, n - 1), w >> 15 == 1);
      TopBit(w);
    } else {
      MovedBit(Reverse(w << 1, n - 1), w >> 15 == 1, 15 - k);
      ReverseBit(w << 1, n - 1, k - 1);
      UpBit(w, k - 1);
    }
  }
}
