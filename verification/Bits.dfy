/** Unsigned machine words as bounded integers, with the bit operations the lock word needs. */
module Bits {
  type uint16 = x: int | 0 <= x < 0x1_0000
  type uint32 = x: int | 0 <= x < 0x1_0000_0000

  /** Increment and decrement with wrap-around, as unsigned machine arithmetic has them. */
  function Up16(x: uint16): uint16 { if x == 0xffff then 0 else x + 1 }

  function Down16(x: uint16): uint16 { if x == 0 then 0xffff else x - 1 }

  function Wrap16(x: int): uint16 { x % 0x1_0000 }

  function Up32(x: uint32): uint32 { if x == 0xffff_ffff then 0 else x + 1 }

  function Down32(x: uint32): uint32 { if x == 0 then 0xffff_ffff else x - 1 }

  /** They count modulo the width. */
  lemma {:induction false} CountModulo(x: uint16, w: uint32)
    ensures Up16(x) as int == (x as int + 1) % 0x1_0000 && Down16(x) as int == (x as int - 1) % 0x1_0000
    ensures Up32(w) as int == (w as int + 1) % 0x1_0000_0000 && Down32(w) as int == (w as int - 1) % 0x1_0000_0000
  {
  }

  /** Bitwise conjunction, one binary digit at a time. */
  function And(x: nat, y: nat): nat {
    if x == 0 || y == 0 then 0 else (x % 2) * (y % 2) + 2 * And(x / 2, y / 2)
  }

  function ShiftRight(x: nat, k: nat): nat {
    if k == 0 then x else ShiftRight(x / 2, k - 1)
  }

  function ShiftLeft(x: nat, k: nat): nat {
    if k == 0 then x else 2 * ShiftLeft(x, k - 1)
  }

  function LowBits(x: nat, k: nat): nat {
    if k == 0 then 0 else x % 2 + 2 * LowBits(x / 2, k - 1)
  }

  const WRITE_LOCK_THREAD_MASK: uint32 := 0xffff_0000
  const READ_LOCK_COUNT_MASK: uint32 := 0x0000_ffff

  /** The thread field of a lock word: mask, then shift right by 16. */
  function OwnerField(w: uint32): nat {
    ShiftRight(And(w, WRITE_LOCK_THREAD_MASK), 16)
  }

  /** The read-count field of a lock word. */
  function ReaderField(w: uint32): nat {
    And(w, READ_LOCK_COUNT_MASK)
  }

  /** A thread id shifted left by 16 in a 32-bit register, then masked to the thread field. */
  function ShiftedId(id: uint16): nat {
    And(LowBits(ShiftLeft(id, 16), 32), WRITE_LOCK_THREAD_MASK)
  }

  lemma {:induction false} AndEven(x: nat, m: nat)
    ensures And(x, 2 * m) == 2 * And(x / 2, m)
  {
    assert (2 * m) / 2 == m && (2 * m) % 2 == 0;
  }

  lemma {:induction false} AndOdd(x: nat, m: nat)
    ensures And(x, 2 * m + 1) == x % 2 + 2 * And(x / 2, m)
  {
    assert (2 * m + 1) / 2 == m && (2 * m + 1) % 2 == 1;
  }

  /** Masking with k ones keeps the low k bits. */
  lemma {:induction false} AndLowMask(x: nat, k: nat)
    ensures ShiftLeft(1, k) >= 1 && And(x, ShiftLeft(1, k) - 1) == LowBits(x, k)
  {
    if k > 0 {
      AndLowMask(x / 2, k - 1);
      AndOdd(x, ShiftLeft(1, k - 1) - 1);
    }
  }

  /** A mask whose low k bits are clear only sees the bits above them. */
  lemma {:induction false} AndShiftedMask(x: nat, y: nat, k: nat)
    ensures And(x, ShiftLeft(y, k)) == ShiftLeft(And(ShiftRight(x, k), y), k)
    decreases k
  {
    if k > 0 {
      AndShiftedMask(x / 2, y, k - 1);
      AndEven(x, ShiftLeft(y, k - 1));
    }
  }

  /** Cutting a number after its low k bits loses nothing. */
  lemma {:induction false} BitsSplit(x: nat, k: nat)
    ensures x == ShiftLeft(ShiftRight(x, k), k) + LowBits(x, k)
    ensures LowBits(x, k) < ShiftLeft(1, k)
    decreases k
  {
    if k > 0 {
      BitsSplit(x / 2, k - 1);
    }
  }

  lemma {:induction false} ShiftBack(x: nat, k: nat)
    ensures ShiftRight(ShiftLeft(x, k), k) == x
    decreases k
  {
    if k > 0 {
      assert (2 * ShiftLeft(x, k - 1)) / 2 == ShiftLeft(x, k - 1);
      ShiftBack(x, k - 1);
    }
  }

  lemma {:induction false} ShiftLeftTwice(x: nat, j: nat, k: nat)
    ensures ShiftLeft(ShiftLeft(x, j), k) == ShiftLeft(x, j + k)
    decreases k
  {
    if k > 0 {
      ShiftLeftTwice(x, j, k - 1);
    }
  }

  lemma {:induction false} ShiftLeftBy4(x: nat)
    ensures ShiftLeft(x, 4) == x * 0x10
  {
    assert ShiftLeft(x, 1) == 2 * x;
    assert ShiftLeft(x, 2) == 4 * x;
    assert ShiftLeft(x, 3) == 8 * x;
  }

  lemma {:induction false} ShiftLeftBy16(x: nat)
    ensures ShiftLeft(x, 16) == x * 0x1_0000
  {
    ShiftLeftTwice(x, 4, 4);
    ShiftLeftTwice(x, 8, 8);
    ShiftLeftBy4(x);
    ShiftLeftBy4(x * 0x10);
    ShiftLeftBy8(x);
    ShiftLeftBy8(x * 0x100);
  }

  lemma {:induction false} ShiftLeftBy8(x: nat)
    ensures ShiftLeft(x, 8) == x * 0x100
  {
    ShiftLeftTwice(x, 4, 4);
    ShiftLeftBy4(x);
    ShiftLeftBy4(x * 0x10);
  }

  lemma {:induction false} Split16(x: nat)
    ensures ShiftRight(x, 16) == x / 0x1_0000 && LowBits(x, 16) == x % 0x1_0000
  {
    BitsSplit(x, 16);
    ShiftLeftBy16(ShiftRight(x, 16));
    ShiftLeftBy16(1);
  }

  lemma {:induction false} FitsIn32(x: nat)
    requires x < 0x1_0000_0000
    ensures LowBits(x, 32) == x
  {
    BitsSplit(x, 32);
    ShiftLeftTwice(ShiftRight(x, 32), 16, 16);
    ShiftLeftBy16(ShiftRight(x, 32));
    ShiftLeftBy16(ShiftRight(x, 32) * 0x1_0000);
  }

  lemma {:induction false} AndReadMask(w: uint32)
    ensures And(w, READ_LOCK_COUNT_MASK) == w % 0x1_0000
  {
    ShiftLeftBy16(1);
    AndLowMask(w, 16);
    Split16(w);
  }

  lemma {:induction false} AndThreadMask(w: uint32)
    ensures And(w, WRITE_LOCK_THREAD_MASK) == w / 0x1_0000 * 0x1_0000
  {
    ShiftLeftBy16(0xffff);
    AndShiftedMask(w, 0xffff, 16);
    Split16(w);
    AndHighHalf(w / 0x1_0000);
    ShiftLeftBy16(w / 0x1_0000);
  }

  lemma {:induction false} AndHighHalf(high: uint16)
    ensures And(high, 0xffff) == high
  {
    AndReadMask(high);
  }

  /** The mask-and-shift expressions of the lock read off quotient and remainder by 2^16. */
  lemma {:induction false} WordFields(w: uint32)
    ensures OwnerField(w) == w / 0x1_0000
    ensures ReaderField(w) == w % 0x1_0000
  {
    AndReadMask(w);
    AndThreadMask(w);
    Split16(w / 0x1_0000 * 0x1_0000);
  }

  /** An id shifted into the thread field is the id times 2^16; no bit of it is lost. */
  lemma {:induction false} ShiftedIdValue(id: uint16)
    ensures ShiftedId(id) == id * 0x1_0000
  {
    ShiftLeftBy16(id);
    var w: uint32 := id * 0x1_0000;
    FitsIn32(w);
    AndThreadMask(w);
  }

  /** Encoding an id and any reader count into a word and decoding it returns both. */
  lemma {:induction false} IdRoundTrip(id: uint16, readers: uint16)
    ensures ShiftedId(id) + readers < 0x1_0000_0000
    ensures OwnerField(ShiftedId(id) + readers) == id
    ensures ReaderField(ShiftedId(id) + readers) == readers
  {
    ShiftedIdValue(id);
    WordFields(id * 0x1_0000 + readers);
  }
}
