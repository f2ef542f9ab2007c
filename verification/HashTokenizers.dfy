/** Collecting the hashes of the distinct tokens of a column. */
module HashTokenizers {
  import opened Bitmaps
  import opened Tokens
  import opened BloomFilters

  const BUCKETS_COUNT: nat := 1024

  /** A hash set that is emptied without clearing its buckets: the bitmap says which are in use. */
  class HashTokenizer {
    const v: array<Word>
    const overflow: array<seq<Word>>
    const bm: Bitmap

    ghost predicate Valid()
      reads this, v, overflow, bm
    {
      && v.Length == overflow.Length == BUCKETS_COUNT
      && bm.Valid() && bm.bitsLen == BUCKETS_COUNT
      && forall i :: 0 <= i < BUCKETS_COUNT && i !in bm.Contents() ==> overflow[i] == []
    }

    ghost predicate Has(h: Word)
      requires Valid()
      reads this, v, overflow, bm
    {
      var i := h % BUCKETS_COUNT;
      i in bm.Contents() && (v[i] == h || h in overflow[i])
    }

    ghost predicate Empty()
      requires Valid()
      reads this, v, overflow, bm
    {
      forall h: Word :: !Has(h)
    }

    constructor ()
      ensures Valid() && Empty() && fresh(v) && fresh(overflow) && fresh(bm)
    {
      v := new Word[BUCKETS_COUNT](_ => 0);
      overflow := new seq<Word>[BUCKETS_COUNT](_ => []);
      bm := new Bitmap(BUCKETS_COUNT);
    }

    /** Adds a hash; tells whether it is new. */
    method AddHash(h: Word) returns (isNew: bool)
      requires Valid()
      modifies v, overflow, bm
      ensures Valid() && isNew == !old(Has(h))
      ensures forall x: Word :: Has(x) <==> old(Has(x)) || x == h
    {
      var idx := h % BUCKETS_COUNT;
      var used := bm.IsSetBit(idx);
      if !used {
        v[idx] := h;
        bm.SetBit(idx);
        return true;
      }
      if v[idx] == h {
        return false;
      }
      if h in overflow[idx] {
        return false;
      }
      overflow[idx] := overflow[idx] + [h];
      return true;
    }

    method AddToken(hr: Hasher, token: string) returns (h: Word, isNew: bool)
      requires Valid()
      modifies v, overflow, bm
      ensures Valid() && h == hr.ofToken(token) && isNew == !old(Has(h))
      ensures forall x: Word :: Has(x) <==> old(Has(x)) || x == h
    {
      h := hr.ofToken(token);
      isNew := AddHash(h);
    }

    /** Empties the set for reuse, bucket by bucket or all at once. */
    method Reset()
      requires Valid()
      modifies overflow, bm
      ensures Valid() && Empty()
    {
      var n := bm.OnesCount();
      if n <= BUCKETS_COUNT / 4 {
        for i := 0 to BUCKETS_COUNT
          invariant Valid() && bm.Contents() == old(bm.Contents())
          invariant forall k :: 0 <= k < i ==> overflow[k] == []
        {
          var used := bm.IsSetBit(i);
          if used {
            overflow[i] := [];
          }
        }
        bm.ForEachSetBit(_ => false);
      } else {
        for i := 0 to BUCKETS_COUNT
          invariant forall k :: 0 <= k < i ==> overflow[k] == []
        {
          overflow[i] := [];
        }
        bm.Init(BUCKETS_COUNT);
      }
    }

    /** Appends the hashes of the tokens of s that were not seen before. */
    method TokenizeString(hr: Hasher, dst0: seq<Word>, s: string) returns (dst: seq<Word>)
      requires Valid() && Emitted(dst0)
      modifies v, overflow, bm
      ensures Valid() && Emitted(dst)
      ensures forall h: Word :: Has(h) <==> old(Has(h)) || IsHashOfToken(hr, s, h)
    {
      dst := dst0;
      var i := 0;
      while i < |s|
        invariant 0 <= i <= |s| && (0 < i < |s| ==> !Phrases.IsTokenChar(s[i - 1]))
        invariant Valid() && Emitted(dst)
        invariant forall h: Word :: Has(h) <==> old(Has(h)) || IsHashBefore(hr, s, i, h)
      {
        var start, end, next := NextToken(s, i);
        HashesUpTo(hr, s, i, next, start, end);
        i := next;
        if end <= start {
          break;
        }
        var h, isNew := AddToken(hr, s[start..end]);
        if isNew {
          dst := dst + [h];
        }
      }
      AllHashesBefore(hr, s);
    }

    /** The hashes handed out so far: each of the set, once. */
    ghost predicate Emitted(dst: seq<Word>)
      requires Valid()
      reads this, v, overflow, bm
    {
      && (forall h: Word :: h in dst <==> Has(h))
      && forall i, j :: 0 <= i < j < |dst| ==> dst[i] != dst[j]
    }
  }

  ghost predicate IsHashOfToken(hr: Hasher, s: string, h: Word) {
    exists t :: IsTokenOf(s, t) && hr.ofToken(t) == h
  }

  ghost predicate IsHashBefore(hr: Hasher, s: string, i: int, h: Word) {
    exists t :: IsTokenBefore(s, i, t) && hr.ofToken(t) == h
  }

  lemma {:induction false} HashesUpTo(hr: Hasher, s: string, i: nat, next: nat, start: nat, end: nat)
    requires i <= next <= |s| && start <= |s| && end <= |s|
    requires start < end ==> IsTokenAt(s, start, end) && i <= start && end <= next
    requires forall a, b :: IsTokenAt(s, a, b) && i <= a < next ==> start < end && a == start && b == end
    ensures forall h: Word :: IsHashBefore(hr, s, next, h) <==>
              IsHashBefore(hr, s, i, h) || (start < end && h == hr.ofToken(s[start..end]))
  {
    TokensUpTo(s, i, next, start, end);
  }

  lemma {:induction false} AllHashesBefore(hr: Hasher, s: string)
    ensures forall h: Word :: IsHashBefore(hr, s, |s|, h) <==> IsHashOfToken(hr, s, h)
  {
    forall t ensures IsTokenBefore(s, |s|, t) <==> IsTokenOf(s, t) {
    }
  }

  ghost predicate IsHashOfColumn(hr: Hasher, values: seq<string>, h: Word) {
    exists i :: 0 <= i < |values| && IsHashOfToken(hr, values[i], h)
  }

  /** The hash of every distinct token of the values, exactly once. The tokenizer comes back empty,
      so it may be used again. */
  method TokenizeHashes(hr: Hasher, t: HashTokenizer, a: seq<string>) returns (hashes: seq<Word>)
    requires t.Valid() && t.Empty()
    modifies t.v, t.overflow, t.bm
    ensures t.Valid() && t.Empty()
    ensures forall h: Word :: h in hashes <==> IsHashOfColumn(hr, a, h)
    ensures forall i, j :: 0 <= i < j < |hashes| ==> hashes[i] != hashes[j]
  {
    hashes := [];
    for i := 0 to |a|
      invariant t.Valid() && t.Emitted(hashes)
      invariant forall h: Word :: t.Has(h) <==> IsHashOfColumn(hr, a[..i], h)
    {
      OneMoreValue(hr, a, i);
      if i > 0 && a[i] == a[i - 1] {
        continue;
      }
      hashes := t.TokenizeString(hr, hashes, a[i]);
    }
    assert a[..|a|] == a;
    t.Reset();
  }

  lemma {:induction false} OneMoreValue(hr: Hasher, a: seq<string>, i: nat)
    requires i < |a|
    ensures forall h: Word :: IsHashOfColumn(hr, a[..i + 1], h) <==> IsHashOfColumn(hr, a[..i], h) || IsHashOfToken(hr, a[i], h)
    ensures i > 0 && a[i] == a[i - 1] ==> forall h: Word :: IsHashOfToken(hr, a[i], h) ==> IsHashOfColumn(hr, a[..i], h)
  {
    assert forall k :: 0 <= k < i ==> a[..i + 1][k] == a[..i][k];
    assert a[..i + 1][i] == a[i];
    assert i > 0 ==> a[..i][i - 1] == a[i - 1];
  }

  /** The bloom filter that is written for a column, after its way to disk and back. Every token of
      every value passes. */
  method WriteAndReadBloomFilter(hr: Hasher, t: HashTokenizer, values: seq<string>) returns (bits: seq<Word>)
    requires t.Valid() && t.Empty()
    modifies t.v, t.overflow, t.bm
    ensures t.Valid() && t.Empty()
    ensures NoFalseNegatives(hr, bits, values)
  {
    var hashes := TokenizeHashes(hr, t, values);
    var written := MustInitHashes(hr, hashes);
    var data := MarshalBits(written);
    var ok;
    ok, bits := UnmarshalBits(data);
    AllTokensAdded(hr, values, hashes, bits);
  }

  ghost predicate NoFalseNegatives(hr: Hasher, bits: seq<Word>, values: seq<string>) {
    forall i, token :: 0 <= i < |values| && IsTokenOf(values[i], token) ==> HasToken(hr, bits, token)
  }

  lemma {:induction false} AllTokensAdded(hr: Hasher, values: seq<string>, hashes: seq<Word>, bits: seq<Word>)
    requires forall h: Word :: h in hashes <==> IsHashOfColumn(hr, values, h)
    requires |bits| == (|hashes| * BITS_PER_ITEM + 63) / 64 && BitsOfHashes(HashesHashes(hr, hashes), bits)
    ensures NoFalseNegatives(hr, bits, values)
  {
    forall i, token | 0 <= i < |values| && IsTokenOf(values[i], token) ensures HasToken(hr, bits, token) {
      assert IsHashOfToken(hr, values[i], hr.ofToken(token));
      assert hr.ofToken(token) in hashes;
      assert bits != [];
      AddedTokenIsFound(hr, hashes, bits, token);
    }
  }
}
