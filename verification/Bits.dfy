/**
 Bit operations on unsigned words, and `__rt_ffs` (rt-thread/src/kservice.c) in both of its forms.
 */
module Bits {

  function Pow2(k: nat): (p: nat)
    ensures p >= 1
  {
    if k == 0 then 1 else 2 * Pow2(k - 1)
  }

  /** Bit `i` of `v`, the least significant bit being bit 0. */
  predicate Bit(v: nat, i: nat) {
    if i == 0 then v % 2 == 1 else Bit(v / 2, i - 1)
  }

  function And(a: nat, b: nat): nat {
    if a == 0 || b == 0 then 0 else 2 * And(a / 2, b / 2) + (if a % 2 == 1 && b % 2 == 1 then 1 else 0)
  }

  function Or(a: nat, b: nat): nat {
    if a == 0 then b else if b == 0 then a
    else 2 * Or(a / 2, b / 2) + (if a % 2 == 1 || b % 2 == 1 then 1 else 0)
  }

  function Xor(a: nat, b: nat): nat {
    if a == 0 then b else if b == 0 then a
    else 2 * Xor(a / 2, b / 2) + (if a % 2 != b % 2 then 1 else 0)
  }

  /** `~b` on a word of `width` bits. */
  function Not(b: nat, width: nat): nat {
    if width == 0 then 0 else 2 * Not(b / 2, width - 1) + (if b % 2 == 1 then 0 else 1)
  }

  lemma {:induction false} ZeroBits(i: nat)
    ensures !Bit(0, i)
  {
    if i > 0 { ZeroBits(i - 1); }
  }

  lemma {:induction false} AndBit(a: nat, b: nat, i: nat)
    ensures Bit(And(a, b), i) <==> Bit(a, i) && Bit(b, i)
  {
    if a == 0 || b == 0 {
      ZeroBits(i);
    } else if i > 0 {
      AndBit(a / 2, b / 2, i - 1);
    }
  }

  lemma {:induction false} OrBit(a: nat, b: nat, i: nat)
    ensures Bit(Or(a, b), i) <==> Bit(a, i) || Bit(b, i)
  {
    if a == 0 || b == 0 {
      ZeroBits(i);
    } else if i > 0 {
      OrBit(a / 2, b / 2, i - 1);
    }
  }

  lemma {:induction false} NotBit(b: nat, width: nat, i: nat)
    requires i < width
    ensures Bit(Not(b, width), i) <==> !Bit(b, i)
  {
    if i > 0 { NotBit(b / 2, width - 1, i - 1); }
  }

  lemma {:induction false} Pow2Bit(k: nat, i: nat)
    ensures Bit(Pow2(k), i) <==> i == k
  {
    if k > 0 && i > 0 {
      Pow2Bit(k - 1, i - 1);
    } else if k == 0 && i > 0 {
      ZeroBits(i - 1);
    }
  }

  /** A word is zero exactly if no bit below its width is set. */
  lemma {:induction false} SomeBit(v: nat, width: nat) returns (i: nat)
    requires 0 < v < Pow2(width)
    ensures i < width && Bit(v, i)
  {
    if v % 2 == 1 {
      i := 0;
    } else {
      i := SomeBit(v / 2, width - 1);
      i := i + 1;
    }
  }

  lemma {:induction false} AndBound(a: nat, b: nat)
    ensures And(a, b) <= a
  {
    if a != 0 && b != 0 { AndBound(a / 2, b / 2); }
  }

  lemma {:induction false} OrBound(a: nat, b: nat, width: nat)
    requires a < Pow2(width) && b < Pow2(width)
    ensures Or(a, b) < Pow2(width)
  {
    if a != 0 && b != 0 { OrBound(a / 2, b / 2, width - 1); }
  }

  lemma {:induction false} Pow2Monotone(j: nat, k: nat)
    requires j < k
    ensures Pow2(j) < Pow2(k)
  {
    if j + 1 < k { Pow2Monotone(j, k - 1); }
  }

  /** `v |= 1 << k`. */
  lemma SetBit(v: nat, k: nat, width: nat)
    requires v < Pow2(width) && k < width
    ensures 0 < Or(v, Pow2(k)) < Pow2(width)
    ensures forall i: nat :: Bit(Or(v, Pow2(k)), i) <==> Bit(v, i) || i == k
  {
    Pow2Monotone(k, width);
    OrBound(v, Pow2(k), width);
    forall i: nat ensures Bit(Or(v, Pow2(k)), i) <==> Bit(v, i) || i == k {
      OrBit(v, Pow2(k), i);
      Pow2Bit(k, i);
    }
    ZeroBits(k);
  }

  /** `v &= ~(1 << k)`, the complement being taken on 32 bits. */
  lemma ClearBit(v: nat, k: nat)
    ensures And(v, Not(Pow2(k), 32)) <= v
    ensures forall i: nat :: i < 32 ==> (Bit(And(v, Not(Pow2(k), 32)), i) <==> Bit(v, i) && i != k)
  {
    AndBound(v, Not(Pow2(k), 32));
    forall i: nat | i < 32 ensures Bit(And(v, Not(Pow2(k), 32)), i) <==> Bit(v, i) && i != k {
      AndBit(v, Not(Pow2(k), 32), i);
      NotBit(Pow2(k), 32, i);
      Pow2Bit(k, i);
    }
  }

  /** A word is zero exactly if none of its bits is set. */
  lemma ZeroWord(v: nat, width: nat)
    requires v < Pow2(width)
    ensures v == 0 ==> forall i: nat :: i < width ==> !Bit(v, i)
    ensures v != 0 ==> exists i: nat :: i < width && Bit(v, i)
  {
    if v == 0 {
      forall i: nat | i < width ensures !Bit(v, i) { ZeroBits(i); }
    } else {
      var i := SomeBit(v, width);
      assert i < width && Bit(v, i);
    }
  }

  lemma ByteSize()
    ensures Pow2(8) == 0x100 && Pow2(32) == 0x1_0000_0000
  {
    WordSize();
  }

  lemma {:induction false} SmallBit(v: nat, width: nat, i: nat)
    requires v < Pow2(width) && Bit(v, i)
    ensures i < width
  {
    if width == 0 {
      ZeroBits(i);
    } else if i > 0 {
      SmallBit(v / 2, width - 1, i - 1);
    }
  }

  // ------------------------------------------------------------------ the least set bit

  /** Bit `k` is set and no bit below it is. */
  ghost predicate IsLeast(v: nat, k: nat) {
    Bit(v, k) && forall i :: 0 <= i < k ==> !Bit(v, i)
  }

  function LeastBit(v: nat): nat
    requires v > 0
  {
    if v % 2 == 1 then 0 else 1 + LeastBit(v / 2)
  }

  lemma {:induction false} LeastBitIsLeast(v: nat)
    requires v > 0
    ensures IsLeast(v, LeastBit(v))
  {
    if v % 2 == 0 {
      LeastBitIsLeast(v / 2);
      forall i | 0 <= i < LeastBit(v) ensures !Bit(v, i) {
        if i > 0 { assert !Bit(v / 2, i - 1); }
      }
    }
  }

  /** The word without its `k` lowest bits, and those bits alone. */
  function High(v: nat, k: nat): nat {
    if k == 0 then v else High(v / 2, k - 1)
  }

  function Low(v: nat, k: nat): nat {
    if k == 0 then 0 else 2 * Low(v / 2, k - 1) + v % 2
  }

  /** The low bits of a word decide its least bit unless they are all zero; then the others do. */
  lemma {:induction false} LeastBitSplit(v: nat, k: nat)
    requires v > 0
    ensures Low(v, k) != 0 ==> LeastBit(v) == LeastBit(Low(v, k))
    ensures Low(v, k) == 0 ==> High(v, k) > 0 && LeastBit(v) == k + LeastBit(High(v, k))
  {
    if k > 0 && v % 2 == 0 { LeastBitSplit(v / 2, k - 1); }
  }

  lemma {:induction false} LowHigh(v: nat, j: nat, k: nat)
    ensures High(v, j + k) == High(High(v, j), k)
    ensures Low(v, j + k) == Low(v, j) + Pow2(j) * Low(High(v, j), k)
  {
    if j > 0 {
      LowHigh(v / 2, j - 1, k);
      Twice(Pow2(j - 1), Low(High(v / 2, j - 1), k));
    }
  }

  lemma Twice(p: nat, l: nat)
    ensures 2 * (p * l) == (2 * p) * l
  {
  }

  lemma Nibble(v: nat)
    ensures High(v, 4) == v / 16 && Low(v, 4) == v % 16
  {
    OneBit(v);
    OneBit(v / 2);
    OneBit(v / 4);
    OneBit(v / 8);
    LowHigh(v, 1, 1);
    LowHigh(v / 4, 1, 1);
    LowHigh(v, 2, 2);
    assert Pow2(1) == 2 && Pow2(2) == 4;
  }

  lemma OneBit(v: nat)
    ensures High(v, 1) == v / 2 && Low(v, 1) == v % 2
  {
  }

  lemma Byte(v: nat)
    ensures High(v, 8) == v / 0x100 && Low(v, 8) == v % 0x100
  {
    LowHigh(v, 4, 4);
    Nibble(v);
    Nibble(v / 16);
    assert Pow2(4) == 16;
  }

  // ------------------------------------------------------------------ find first set, by bytes

  /** The byte table by rows of sixteen; rows differ in their first entry only. */
  function LowestBitRow(first: nat): seq<nat> {
    [first, 0, 1, 0, 2, 0, 1, 0, 3, 0, 1, 0, 2, 0, 1, 0]
  }

  const LOWEST_BIT_FIRST: seq<nat> := [0, 4, 5, 4, 6, 4, 5, 4, 7, 4, 5, 4, 6, 4, 5, 4]

  function LowestBit(b: nat): (k: nat)
    requires 0 < b < 0x100
    ensures k == LeastBit(b)
  {
    TableLookup(b);
    LowestBitRow(LOWEST_BIT_FIRST[b / 16])[b % 16]
  }

  lemma NibbleBits(n: nat)
    requires 0 < n < 16
    ensures LowestBitRow(0)[n] == LeastBit(n)
    ensures LOWEST_BIT_FIRST[n] == 4 + LeastBit(n)
  {
    match n
    case 1 => case 2 => case 3 => case 4 => case 5 => case 6 => case 7 => case 8 => case 9 => case 10 =>
    case 11 => case 12 => case 13 => case 14 => case 15 =>
  }

  lemma RowEntries(first: nat, n: nat)
    requires n < 16
    ensures |LowestBitRow(first)| == 16
    ensures LowestBitRow(first)[n] == if n == 0 then first else LowestBitRow(0)[n]
  {
  }

  lemma TableLookup(b: nat)
    requires 0 < b < 0x100
    ensures LowestBitRow(LOWEST_BIT_FIRST[b / 16])[b % 16] == LeastBit(b)
  {
    hide LeastBit, High, Low, LowestBitRow;
    var row, column := b / 16, b % 16;
    Nibble(b);
    LeastBitSplit(b, 4);
    RowEntries(LOWEST_BIT_FIRST[row], column);
    NibbleBits(if column != 0 then column else row);
  }

  /** `__rt_ffs`: the position of the least set bit counted from 1, or 0, one byte at a time. */
  function Ffs(value: nat): (r: nat)
    requires value < 0x1_0000_0000
    ensures r == 0 <==> value == 0
    ensures value > 0 ==> r <= 32 && IsLeast(value, r - 1)
  {
    if value == 0 then 0
    else
      LeastBitIsLeast(value);
      WordBytes(value);
      LeastBitBelow(value, 32);
      if value % 0x100 != 0 then LowestBit(value % 0x100) + 1
      else if value / 0x100 % 0x100 != 0 then LowestBit(value / 0x100 % 0x100) + 9
      else if value / 0x1_0000 % 0x100 != 0 then LowestBit(value / 0x1_0000 % 0x100) + 17
      else LowestBit(value / 0x100_0000 % 0x100) + 25
  }

  lemma {:induction false} LeastBitBelow(v: nat, width: nat)
    requires 0 < v < Pow2(width)
    ensures LeastBit(v) < width
  {
    if v % 2 == 0 { LeastBitBelow(v / 2, width - 1); }
  }

  /** The least bit of a 32-bit word is found in its first byte that is not zero. */
  lemma WordBytes(v: nat)
    requires 0 < v < 0x1_0000_0000
    ensures Pow2(32) == 0x1_0000_0000
    ensures v % 0x100 != 0 ==> LeastBit(v) == LeastBit(v % 0x100)
    ensures v % 0x100 == 0 && v / 0x100 % 0x100 != 0 ==> LeastBit(v) == 8 + LeastBit(v / 0x100 % 0x100)
    ensures v % 0x100 == 0 && v / 0x100 % 0x100 == 0 && v / 0x1_0000 % 0x100 != 0 ==>
      LeastBit(v) == 16 + LeastBit(v / 0x1_0000 % 0x100)
    ensures v % 0x100 == 0 && v / 0x100 % 0x100 == 0 && v / 0x1_0000 % 0x100 == 0 ==>
      v / 0x100_0000 % 0x100 > 0 && LeastBit(v) == 24 + LeastBit(v / 0x100_0000 % 0x100)
  {
    hide LeastBit, High, Low, Pow2;
    WordSize();
    Byte(v);
    LeastBitSplit(v, 8);
    if v % 0x100 == 0 {
      Byte(v / 0x100);
      LeastBitSplit(v / 0x100, 8);
      if v / 0x100 % 0x100 == 0 {
        Byte(v / 0x1_0000);
        LeastBitSplit(v / 0x1_0000, 8);
      }
    }
  }

  lemma WordSize()
    ensures Pow2(32) == 0x1_0000_0000
  {
    assert Pow2(8) == 0x100;
    assert Pow2(16) == 0x1_0000;
    assert Pow2(24) == 0x100_0000;
  }

  // ------------------------------------------------------------------ find first set, the tiny form

  /** The 37-entry table. */
  function TinyLowestBit(index: nat): nat
    requires index < 37
  {
    match index
    case 0 => 0 case 1 => 1 case 2 => 2 case 3 => 27 case 4 => 3 case 5 => 24 case 6 => 28 case 7 => 32
    case 8 => 4 case 9 => 17 case 10 => 25 case 11 => 31 case 12 => 29 case 13 => 12 case 14 => 32 case 15 => 14
    case 16 => 5 case 17 => 8 case 18 => 18 case 19 => 32 case 20 => 26 case 21 => 23 case 22 => 32 case 23 => 16
    case 24 => 30 case 25 => 11 case 26 => 13 case 27 => 7 case 28 => 32 case 29 => 22 case 30 => 15 case 31 => 10
    case 32 => 6 case 33 => 21 case 34 => 9 case 35 => 20 case 36 => 19
  }

  /** `__rt_ffs` with RT_USING_TINY_FFS: isolate the least bit, then look it up modulo 37. */
  function TinyFfs(value: nat): (r: nat)
    requires value < 0x1_0000_0000
    ensures r == Ffs(value)
  {
    var before := if value == 0 then 0xFFFF_FFFF else value - 1;
    var isolated := Xor(And(value, before), value);
    TinyIsolates(value);
    TinyLowestBit(isolated % 37)
  }

  lemma TinyIsolates(value: nat)
    requires value < 0x1_0000_0000
    ensures value > 0 ==>
      TinyLowestBit(Xor(And(value, value - 1), value) % 37) == Ffs(value)
  {
    if value > 0 {
      LowestIsolated(value);
      LeastBitIsLeast(value);
      WordSize();
      LeastBitBelow(value, 32);
      TinyTable(LeastBit(value));
      LeastUnique(value, LeastBit(value), Ffs(value) - 1);
    }
  }

  lemma LeastUnique(v: nat, j: nat, k: nat)
    requires IsLeast(v, j) && IsLeast(v, k)
    ensures j == k
  {
  }

  /** The powers of two below 2^32 leave different remainders modulo 37. */
  lemma {:induction false} TinyTable(k: nat)
    requires k < 32
    ensures TinyLowestBit(Pow2(k) % 37) == k + 1
  {
    hide TinyLowestBit;
    if k == 0 {
      TinyDoubles(0);
    } else {
      TinyTable(k - 1);
      TinyDoubles(Pow2(k - 1) % 37);
      DoubleModulo(Pow2(k - 1));
    }
  }

  lemma DoubleModulo(p: nat)
    ensures 2 * p % 37 == 2 * (p % 37) % 37
  {
  }

  /** Each entry below 32 is followed, at twice its index, by the next number. */
  lemma TinyDoubles(y: nat)
    requires y < 37
    ensures TinyLowestBit(1) == 1
    ensures 0 < TinyLowestBit(y) < 32 ==> TinyLowestBit(2 * y % 37) == TinyLowestBit(y) + 1
  {
    hide TinyLowestBit;
    TinyFirst();
    if y < 19 {
      assert 2 * y % 37 == 2 * y;
      TinyLow(y);
    } else {
      assert 2 * y % 37 == 2 * y - 37;
      TinyHigh(y);
    }
  }

  lemma TinyFirst()
    ensures TinyLowestBit(1) == 1
  {
  }

  lemma TinyLow(y: nat)
    requires y < 19
    ensures 0 < TinyLowestBit(y) < 32 ==> TinyLowestBit(2 * y) == TinyLowestBit(y) + 1
  {
  }

  lemma TinyHigh(y: nat)
    requires 19 <= y < 37
    ensures 0 < TinyLowestBit(y) < 32 ==> TinyLowestBit(2 * y - 37) == TinyLowestBit(y) + 1
  {
  }

  /** Clearing the least set bit and comparing with the word leaves just that bit. */
  lemma {:induction false} LowestIsolated(v: nat)
    requires v > 0
    ensures Xor(And(v, v - 1), v) == Pow2(LeastBit(v))
  {
    if v % 2 == 1 {
      assert And(v, v - 1) == v - 1 by { AndPredecessor(v); }
      XorPredecessor(v);
    } else {
      LowestIsolated(v / 2);
      var h := v / 2;
      EvenPredecessor(v);
      AndBound(h, h - 1);
      hide And;
    }
  }

  lemma EvenPredecessor(v: nat)
    requires v > 0 && v % 2 == 0
    ensures And(v, v - 1) == 2 * And(v / 2, v / 2 - 1)
  {
    var h := v / 2;
    assert (v - 1) / 2 == h - 1 && (v - 1) % 2 == 1;
  }

  lemma {:induction false} AndSelf(v: nat)
    ensures And(v, v) == v
  {
    if v > 0 { AndSelf(v / 2); }
  }

  lemma AndPredecessor(v: nat)
    requires v % 2 == 1
    ensures And(v, v - 1) == v - 1
  {
    AndSelf(v / 2);
    assert (v - 1) / 2 == v / 2;
  }

  lemma {:induction false} XorSelf(v: nat)
    ensures Xor(v, v) == 0
  {
    if v > 0 { XorSelf(v / 2); }
  }

  lemma XorPredecessor(v: nat)
    requires v % 2 == 1
    ensures Xor(v - 1, v) == 1
  {
    XorSelf(v / 2);
    assert (v - 1) / 2 == v / 2;
  }
}
