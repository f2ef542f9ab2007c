/** Sets of row numbers, packed into words of 64 bits. */
module Bitmaps {
  const WORD_BITS: nat := 64

  /** A machine word; bit operations are stated through its bits. */
  type Word = w: nat | w < 0x1_0000_0000_0000_0000

  // ---------- Words ----------

  predicate Bit(w: nat, j: nat) {
    if j == 0 then w % 2 == 1 else Bit(w / 2, j - 1)
  }

  function Power2(j: nat): (p: nat)
    ensures p > 0
  {
    if j == 0 then 1 else 2 * Power2(j - 1)
  }

  /** w | 1 << j */
  function WithBit(w: nat, j: nat): (v: nat)
  {
    if j == 0 then 2 * (w / 2) + 1 else 2 * WithBit(w / 2, j - 1) + w % 2
  }

  /** w & ^(1 << j) */
  function WithoutBit(w: nat, j: nat): (v: nat)
    ensures v <= w
  {
    if j == 0 then 2 * (w / 2) else 2 * WithoutBit(w / 2, j - 1) + w % 2
  }

  /** w & ^x */
  function AndNotWord(w: nat, x: nat): (v: nat)
    ensures v <= w
  {
    if w == 0 then 0 else 2 * AndNotWord(w / 2, x / 2) + if x % 2 == 1 then 0 else w % 2
  }

  /** w & ((1 << n) - 1) */
  function LowBits(w: nat, n: nat): (v: nat)
    ensures v <= w && v < Power2(n)
  {
    if n == 0 then 0 else 2 * LowBits(w / 2, n - 1) + w % 2
  }

  /** The number of set bits. */
  function OnesCount64(w: nat): nat {
    if w == 0 then 0 else OnesCount64(w / 2) + w % 2
  }

  lemma {:induction false} WithBitBits(w: nat, j: nat, k: nat)
    ensures Bit(WithBit(w, j), k) <==> Bit(w, k) || k == j
  {
    if j > 0 && k > 0 {
      assert WithBit(w, j) / 2 == WithBit(w / 2, j - 1);
      WithBitBits(w / 2, j - 1, k - 1);
    } else if k > 0 {
      assert WithBit(w, j) / 2 == w / 2;
    }
  }

  lemma {:induction false} WithBitSize(w: nat, j: nat, n: nat)
    requires w < Power2(n) && j < n
    ensures WithBit(w, j) < Power2(n)
  {
    if j > 0 {
      WithBitSize(w / 2, j - 1, n - 1);
    }
  }

  lemma {:induction false} WithoutBitBits(w: nat, j: nat, k: nat)
    ensures Bit(WithoutBit(w, j), k) <==> Bit(w, k) && k != j
  {
    if j > 0 && k > 0 {
      assert WithoutBit(w, j) / 2 == WithoutBit(w / 2, j - 1);
      WithoutBitBits(w / 2, j - 1, k - 1);
    } else if k > 0 {
      assert WithoutBit(w, j) / 2 == w / 2;
    }
  }

  lemma {:induction false} AndNotBits(w: nat, x: nat, k: nat)
    ensures Bit(AndNotWord(w, x), k) <==> Bit(w, k) && !Bit(x, k)
  {
    if w == 0 {
      NoBits(0, k);
    } else if k > 0 {
      assert AndNotWord(w, x) / 2 == AndNotWord(w / 2, x / 2);
      AndNotBits(w / 2, x / 2, k - 1);
    }
  }

  lemma {:induction false} LowBitsBits(w: nat, n: nat, k: nat)
    ensures Bit(LowBits(w, n), k) <==> Bit(w, k) && k < n
  {
    if n == 0 {
      NoBits(0, k);
    } else if k > 0 {
      assert LowBits(w, n) / 2 == LowBits(w / 2, n - 1);
      LowBitsBits(w / 2, n - 1, k - 1);
    }
  }

  /** Bits beyond the size of a number are not set. */
  lemma {:induction false} NoBits(n: nat, k: nat)
    requires n < Power2(k)
    ensures !Bit(n, k)
  {
    if k > 0 {
      NoBits(n / 2, k - 1);
    }
  }

  lemma {:induction false} SomeBit(w: nat, n: nat) returns (k: nat)
    requires 0 < w < Power2(n)
    ensures k < n && Bit(w, k)
  {
    k := 0;
    if w % 2 == 0 {
      k := SomeBit(w / 2, n - 1);
      k := k + 1;
    }
  }

  lemma {:induction false} OnesBits(n: nat, k: nat)
    requires k < n
    ensures Bit(Power2(n) - 1, k)
  {
    if k > 0 {
      assert (Power2(n) - 1) / 2 == Power2(n - 1) - 1;
      OnesBits(n - 1, k - 1);
    }
  }

  lemma {:induction false} OnlyOnes(w: nat, n: nat)
    requires w < Power2(n) && forall k: nat :: k < n ==> Bit(w, k)
    ensures w == Power2(n) - 1
  {
    if n > 0 {
      assert Bit(w, 0);
      forall k: nat | k < n - 1 ensures Bit(w / 2, k) {
        assert Bit(w, k + 1);
      }
      OnlyOnes(w / 2, n - 1);
    }
  }

  /** The word with the lowest n bits set. */
  lemma {:induction false} AllOnes(w: nat, n: nat)
    requires w < Power2(n)
    ensures w == Power2(n) - 1 <==> AllBits(w, n)
  {
    if w == Power2(n) - 1 {
      forall k: nat | k < n ensures Bit(w, k) {
        OnesBits(n, k);
      }
    } else if AllBits(w, n) {
      OnlyOnes(w, n);
    }
  }

  ghost predicate AllBits(w: nat, n: nat) {
    forall k: nat :: k < n ==> Bit(w, k)
  }

  lemma {:induction false} Power2Of64()
    ensures Power2(64) == 0x1_0000_0000_0000_0000
  {
    assert Power2(8) == 0x100;
    Power2Sum(8, 8);
    Power2Sum(16, 16);
    Power2Sum(32, 32);
  }

  lemma {:induction false} Power2Sum(a: nat, b: nat)
    ensures Power2(a + b) == Power2(a) * Power2(b)
  {
    if a > 0 {
      Power2Sum(a - 1, b);
      assert Power2(a) * Power2(b) == 2 * (Power2(a - 1) * Power2(b));
    }
  }

  // ---------- Bitmaps ----------

  /** Bit i of a list of words. */
  predicate IsSet(a: seq<Word>, i: nat) {
    i / WORD_BITS < |a| && Bit(a[i / WORD_BITS], i % WORD_BITS)
  }

  ghost predicate ValidWords(a: seq<Word>, bitsLen: nat) {
    && |a| == (bitsLen + 63) / WORD_BITS
    && forall i: nat :: bitsLen <= i ==> !IsSet(a, i)
  }

  /** The numbers below n whose bits are set. */
  ghost function SetBelow(a: seq<Word>, n: nat): set<nat> {
    set i: nat | i < n && IsSet(a, i)
  }

  lemma {:induction false} NothingSet(a: seq<Word>)
    requires forall k :: 0 <= k < |a| ==> a[k] == 0
    ensures forall i: nat :: !IsSet(a, i)
  {
    forall i: nat ensures !IsSet(a, i) {
      NoBits(0, i % WORD_BITS);
    }
  }

  lemma {:induction false} IsSetInAll(a: seq<Word>, bitsLen: nat, i: nat)
    requires |a| == (bitsLen + 63) / WORD_BITS
    requires forall k :: 0 <= k < |a| ==>
               a[k] == if bitsLen % WORD_BITS > 0 && k == |a| - 1 then LowBits(0xFFFF_FFFF_FFFF_FFFF, bitsLen % WORD_BITS)
                       else 0xFFFF_FFFF_FFFF_FFFF
    ensures IsSet(a, i) <==> i < bitsLen
  {
    Power2Of64();
    AllOnes(0xFFFF_FFFF_FFFF_FFFF, 64);
    LowBitsBits(0xFFFF_FFFF_FFFF_FFFF, bitsLen % WORD_BITS, i % WORD_BITS);
  }

  lemma {:induction false} EverythingSet(a: seq<Word>, bitsLen: nat)
    requires |a| == (bitsLen + 63) / WORD_BITS
    requires forall k :: 0 <= k < |a| ==>
               a[k] == if bitsLen % WORD_BITS > 0 && k == |a| - 1 then LowBits(0xFFFF_FFFF_FFFF_FFFF, bitsLen % WORD_BITS)
                       else 0xFFFF_FFFF_FFFF_FFFF
    ensures ValidWords(a, bitsLen) && forall i: nat :: i < bitsLen ==> IsSet(a, i)
  {
    Power2Of64();
    AllOnes(0xFFFF_FFFF_FFFF_FFFF, 64);
    forall i: nat ensures IsSet(a, i) <==> i < bitsLen {
      IsSetInAll(a, bitsLen, i);
    }
  }

  lemma {:induction false} WordHasBit(a: seq<Word>, i: nat)
    requires i < |a| && a[i] != 0
    ensures exists k: nat :: IsSet(a, k)
  {
    Power2Of64();
    var j := SomeBit(a[i], 64);
    assert (64 * i + j) / WORD_BITS == i && (64 * i + j) % WORD_BITS == j;
    assert IsSet(a, 64 * i + j);
  }

  /** All bits of word k that belong to the bitmap are set. */
  ghost predicate FullWord(a: seq<Word>, bitsLen: nat, k: nat)
    requires k < |a|
  {
    forall j: nat :: j < 64 && 64 * k + j < bitsLen ==> Bit(a[k], j)
  }

  /** A number without high bits is small. */
  lemma {:induction false} SmallWord(w: nat, t: nat, n: nat)
    requires w < Power2(n) && t <= n && forall k: nat :: t <= k < n ==> !Bit(w, k)
    ensures w < Power2(t)
  {
    if t == 0 {
      if w > 0 {
        var k := SomeBit(w, n);
      }
    } else {
      forall k: nat | t - 1 <= k < n - 1 ensures !Bit(w / 2, k) {
        assert !Bit(w, k + 1);
      }
      SmallWord(w / 2, t - 1, n - 1);
    }
  }

  lemma {:induction false} WordBits(a: seq<Word>, k: nat, j: nat)
    requires k < |a| && j < 64
    ensures IsSet(a, 64 * k + j) <==> Bit(a[k], j)
  {
    assert (64 * k + j) / WORD_BITS == k && (64 * k + j) % WORD_BITS == j;
  }

  /** The checks of AreAllBitsSet for one word. */
  lemma {:induction false} FullWordBits(a: seq<Word>, bitsLen: nat, k: nat)
    requires ValidWords(a, bitsLen) && k < |a|
    ensures FullWord(a, bitsLen, k) <==>
            a[k] == 0xFFFF_FFFF_FFFF_FFFF || (k == |a| - 1 && bitsLen % 64 > 0 && a[k] == Power2(bitsLen % 64) - 1)
    ensures !FullWord(a, bitsLen, k) ==> exists i: nat :: i < bitsLen && !IsSet(a, i)
  {
    Power2Of64();
    AllOnes(a[k], 64);
    var t := if 64 * k + 64 <= bitsLen then 64 else bitsLen - 64 * k;
    forall j: nat | t <= j < 64 ensures !Bit(a[k], j) {
      WordBits(a, k, j);
      assert !IsSet(a, 64 * k + j);
    }
    SmallWord(a[k], t, 64);
    AllOnes(a[k], t);
    if !FullWord(a, bitsLen, k) {
      var j: nat :| j < 64 && 64 * k + j < bitsLen && !Bit(a[k], j);
      WordBits(a, k, j);
    }
  }

  lemma {:induction false} AllWordsFull(a: seq<Word>, bitsLen: nat)
    requires ValidWords(a, bitsLen) && forall k :: 0 <= k < |a| ==> FullWord(a, bitsLen, k)
    ensures forall i: nat :: i < bitsLen ==> IsSet(a, i)
  {
    forall i: nat | i < bitsLen ensures IsSet(a, i) {
      assert FullWord(a, bitsLen, i / WORD_BITS) && i == 64 * (i / WORD_BITS) + i % WORD_BITS;
    }
  }

  lemma {:induction false} AndNotContents(a: seq<Word>, a0: seq<Word>, b: seq<Word>)
    requires |a| == |a0| == |b| && forall k :: 0 <= k < |a| ==> a[k] == AndNotWord(a0[k], b[k])
    ensures forall i: nat :: IsSet(a, i) <==> IsSet(a0, i) && !IsSet(b, i)
  {
    forall i: nat ensures IsSet(a, i) <==> IsSet(a0, i) && !IsSet(b, i) {
      if i / WORD_BITS < |a| {
        AndNotBits(a0[i / WORD_BITS], b[i / WORD_BITS], i % WORD_BITS);
      }
    }
  }

  ghost predicate WordFiltered(word: nat, word0: nat, i: nat, f: nat -> bool) {
    forall j: nat :: j < 64 ==> (Bit(word, j) <==> Bit(word0, j) && f(64 * i + j))
  }

  lemma {:induction false} NoBitsInZero(i: nat, f: nat -> bool)
    ensures WordFiltered(0, 0, i, f)
  {
    forall j: nat | j < 64 ensures !Bit(0, j) {
      NoBits(0, j);
    }
  }

  /** Applies f to the bits of word i. The storage leaves at the first bit outside the bitmap, which
      would drop the changes to the word; a valid bitmap has no such bit. */
  method FilterWord(word: Word, i: nat, bitsLen: nat, f: nat -> bool) returns (wordNew: Word)
    requires forall j: nat :: j < 64 && Bit(word, j) ==> 64 * i + j < bitsLen
    ensures WordFiltered(wordNew, word, i, f)
  {
    wordNew := word;
    for j := 0 to 64
      invariant forall k: nat :: k < 64 ==> (Bit(wordNew, k) <==> Bit(word, k) && (k < j ==> f(64 * i + k)))
    {
      if Bit(word, j) {
        var idx := 64 * i + j;
        if idx >= bitsLen {
          assert false;
        }
        if !f(idx) {
          forall k: nat | k < 64 ensures Bit(WithoutBit(wordNew, j), k) <==> Bit(wordNew, k) && k != j {
            WithoutBitBits(wordNew, j, k);
          }
          wordNew := WithoutBit(wordNew, j);
        }
      }
    }
  }

  lemma {:induction false} FilteredContents(a: seq<Word>, a0: seq<Word>, bitsLen: nat, f: nat -> bool)
    requires ValidWords(a0, bitsLen) && |a| == |a0|
    requires forall k :: 0 <= k < |a| ==> WordFiltered(a[k], a0[k], k, f)
    ensures ValidWords(a, bitsLen) && forall i: nat :: IsSet(a, i) <==> IsSet(a0, i) && f(i)
  {
    forall i: nat ensures IsSet(a, i) <==> IsSet(a0, i) && f(i) {
      var k, j := i / WORD_BITS, i % WORD_BITS;
      assert i == 64 * k + j;
      if k < |a| {
        assert WordFiltered(a[k], a0[k], k, f);
      }
    }
  }

  lemma {:induction false} BitsInside(a: seq<Word>, bitsLen: nat, i: nat)
    requires ValidWords(a, bitsLen) && i < |a|
    ensures forall j: nat :: j < 64 && Bit(a[i], j) ==> 64 * i + j < bitsLen
  {
    forall j: nat | j < 64 && Bit(a[i], j) ensures 64 * i + j < bitsLen {
      WordBits(a, i, j);
    }
  }

  // Counting.

  ghost function CountBits(w: nat, n: nat): nat {
    if n == 0 then 0 else CountBits(w, n - 1) + if Bit(w, n - 1) then 1 else 0
  }

  lemma {:induction false} CountShifted(w: nat, n: nat)
    ensures CountBits(w, n + 1) == w % 2 + CountBits(w / 2, n)
  {
    if n > 0 {
      CountShifted(w, n - 1);
    } else {
      assert CountBits(w, 1) == CountBits(w, 0) + if Bit(w, 0) then 1 else 0;
    }
  }

  lemma {:induction false} OnesAreCounted(w: nat, n: nat)
    requires w < Power2(n)
    ensures OnesCount64(w) == CountBits(w, n)
  {
    if n > 0 {
      OnesAreCounted(w / 2, n - 1);
      CountShifted(w, n - 1);
    }
  }

  lemma {:induction false} SizeOfSetBelow(a: seq<Word>, start: nat, n: nat, i: nat)
    requires start == 64 * i && i < |a| && n <= 64
    ensures |SetBelow(a, start + n)| == |SetBelow(a, start)| + CountBits(a[i], n)
  {
    if n > 0 {
      SizeOfSetBelow(a, start, n - 1, i);
      WordBits(a, i, n - 1);
      var k: nat := start + (n - 1);
      assert SetBelow(a, k + 1) == SetBelow(a, k) + if IsSet(a, k) then {k} else {};
    }
  }

  lemma {:induction false} CountWord(a: seq<Word>, i: nat)
    requires i < |a|
    ensures |SetBelow(a, WORD_BITS * (i + 1))| == |SetBelow(a, WORD_BITS * i)| + OnesCount64(a[i])
  {
    Power2Of64();
    OnesAreCounted(a[i], 64);
    SizeOfSetBelow(a, 64 * i, 64, i);
  }

  class Bitmap {
    var a: seq<Word>
    var bitsLen: nat

    ghost predicate Valid()
      reads this
    {
      ValidWords(a, bitsLen)
    }

    ghost function Contents(): set<nat>
      reads this
    {
      SetBelow(a, bitsLen)
    }

    constructor (bitsLen: nat)
      ensures Valid() && this.bitsLen == bitsLen && Contents() == {}
    {
      this.a, this.bitsLen := seq((bitsLen + 63) / WORD_BITS, _ => 0), bitsLen;
      new;
      NothingSet(a);
    }

    method Init(bitsLen: nat)
      modifies this
      ensures Valid() && this.bitsLen == bitsLen && Contents() == {}
    {
      this.a, this.bitsLen := seq((bitsLen + 63) / WORD_BITS, _ => 0), bitsLen;
      NothingSet(a);
    }

    method CopyFrom(src: Bitmap)
      requires src.Valid()
      modifies this
      ensures Valid() && bitsLen == old(src.bitsLen) && Contents() == old(src.Contents())
    {
      a, bitsLen := src.a, src.bitsLen;
    }

    method ResetBits()
      requires Valid()
      modifies this`a
      ensures Valid() && Contents() == {}
    {
      a := seq(|a|, _ => 0);
      NothingSet(a);
    }

    /** Sets all bits, and zeroes those of the last word that are outside. */
    method SetBits()
      requires Valid()
      modifies this`a
      ensures Valid() && forall i: nat :: i < bitsLen ==> i in Contents()
    {
      Power2Of64();
      a := seq(|a|, _ => 0xFFFF_FFFF_FFFF_FFFF);
      var tailBits := bitsLen % WORD_BITS;
      if tailBits > 0 && |a| > 0 {
        a := a[|a| - 1 := LowBits(a[|a| - 1], tailBits)];
      }
      EverythingSet(a, bitsLen);
    }

    method IsZero() returns (zero: bool)
      requires Valid()
      ensures zero == (Contents() == {})
    {
      for i := 0 to |a|
        invariant forall k :: 0 <= k < i ==> a[k] == 0
      {
        if a[i] != 0 {
          WordHasBit(a, i);
          var k: nat :| IsSet(a, k);
          assert k in Contents();
          return false;
        }
      }
      NothingSet(a);
      return true;
    }

    method AreAllBitsSet() returns (all: bool)
      requires Valid()
      ensures all == forall i: nat :: i < bitsLen ==> i in Contents()
    {
      for i := 0 to |a|
        invariant forall k :: 0 <= k < i ==> FullWord(a, bitsLen, k)
      {
        FullWordBits(a, bitsLen, i);
        if a[i] != 0xFFFF_FFFF_FFFF_FFFF {
          var tailBits := bitsLen % WORD_BITS;
          if i + 1 < |a| || tailBits == 0 || a[i] != Power2(tailBits) - 1 {
            var k: nat :| k < bitsLen && !IsSet(a, k);
            assert k !in Contents();
            return false;
          }
        }
      }
      AllWordsFull(a, bitsLen);
      return true;
    }

    method AndNot(x: Bitmap)
      requires Valid() && x.Valid() && bitsLen == x.bitsLen
      modifies this`a
      ensures Valid() && Contents() == old(Contents()) - old(x.Contents())
    {
      var zero := x.IsZero();
      if zero {
        return;
      }
      var b := x.a;
      ghost var a0 := a;
      for i := 0 to |a|
        invariant |a| == |a0|
        invariant forall k :: 0 <= k < |a| ==> a[k] == if k < i then AndNotWord(a0[k], b[k]) else a0[k]
      {
        a := a[i := AndNotWord(a[i], b[i])];
      }
      AndNotContents(a, a0, b);
    }

    method SetBit(i: nat)
      requires Valid() && i < bitsLen
      modifies this`a
      ensures Valid() && Contents() == old(Contents()) + {i}
    {
      var wordIdx, wordOffset := i / WORD_BITS, i % WORD_BITS;
      Power2Of64();
      WithBitSize(a[wordIdx], wordOffset, 64);
      ghost var a0 := a;
      a := a[wordIdx := WithBit(a[wordIdx], wordOffset)];
      forall k: nat ensures IsSet(a, k) <==> IsSet(a0, k) || k == i {
        WithBitBits(a0[wordIdx], wordOffset, k % WORD_BITS);
      }
    }

    method IsSetBit(i: nat) returns (isSet: bool)
      requires Valid() && i < bitsLen
      ensures isSet == (i in Contents())
    {
      return Bit(a[i / WORD_BITS], i % WORD_BITS);
    }

    /** Calls f for every set bit and clears the bits for which it returns false. */
    method ForEachSetBit(f: nat -> bool)
      requires Valid()
      modifies this`a
      ensures Valid() && Contents() == set i | i in old(Contents()) && f(i)
    {
      ghost var a0 := a;
      for i := 0 to |a|
        invariant |a| == |a0|
        invariant forall k :: i <= k < |a| ==> a[k] == a0[k]
        invariant forall k :: 0 <= k < i ==> WordFiltered(a[k], a0[k], k, f)
      {
        if a[i] != 0 {
          BitsInside(a0, bitsLen, i);
          var wordNew := FilterWord(a[i], i, bitsLen, f);
          a := a[i := wordNew];
        } else {
          NoBitsInZero(i, f);
        }
      }
      FilteredContents(a, a0, bitsLen, f);
    }

    method OnesCount() returns (n: nat)
      requires Valid()
      ensures n == |Contents()|
    {
      n := 0;
      for i := 0 to |a|
        invariant n == |SetBelow(a, WORD_BITS * i)|
      {
        CountWord(a, i);
        n := n + OnesCount64(a[i]);
      }
      assert SetBelow(a, WORD_BITS * |a|) == SetBelow(a, bitsLen);
    }
  }
}
