/** Bloom filters over the tokens of a column. */
module BloomFilters {
  import opened Bitmaps
  import opened Tokens
  import BE = BigEndian

  const HASHES_COUNT: nat := 6
  const BITS_PER_ITEM: nat := 16

  /** The hash function, on strings and on the 8 bytes of a number. */
  datatype Hasher = Hasher(ofToken: string -> Word, ofNumber: Word -> Word)

  function Add64(h: Word, k: nat): Word {
    (h + k) % 0x1_0000_0000_0000_0000
  }

  /** The hashes that stand for one token in a filter. */
  function HashesOf(hr: Hasher, h: Word, n: nat): (hashes: seq<Word>)
    ensures |hashes| == n
  {
    if n == 0 then [] else HashesOf(hr, h, n - 1) + [hr.ofNumber(Add64(h, n - 1))]
  }

  function HashesHashes(hr: Hasher, hashes: seq<Word>): seq<Word> {
    if hashes == [] then []
    else HashesHashes(hr, hashes[..|hashes| - 1]) + HashesOf(hr, hashes[|hashes| - 1], HASHES_COUNT)
  }

  function TokensHashes(hr: Hasher, tokens: seq<string>): seq<Word> {
    if tokens == [] then []
    else TokensHashes(hr, tokens[..|tokens| - 1]) + HashesOf(hr, hr.ofToken(tokens[|tokens| - 1]), HASHES_COUNT)
  }

  ghost function NumberedHash(hr: Hasher, h: Word, k: nat): Word {
    hr.ofNumber((h + k) % 0x1_0000_0000_0000_0000)
  }

  /** One of the six hashes that a filter looks at for the hash of a token. */
  ghost predicate IsHashOf(hr: Hasher, h: Word, x: Word) {
    exists k: nat :: k < 6 && x == NumberedHash(hr, h, k)
  }

  lemma {:induction false} HashAt(hr: Hasher, h: Word, n: nat, k: nat)
    requires k < n
    ensures HashesOf(hr, h, n)[k] == NumberedHash(hr, h, k)
  {
    if k < n - 1 {
      HashAt(hr, h, n - 1, k);
    }
  }

  lemma {:induction false} SixHashes(hr: Hasher, h: Word)
    ensures forall x :: x in HashesOf(hr, h, HASHES_COUNT) <==> IsHashOf(hr, h, x)
  {
    var hashes := HashesOf(hr, h, HASHES_COUNT);
    assert |hashes| == 6;
    forall k: nat | k < 6 ensures hashes[k] == NumberedHash(hr, h, k) {
      HashAt(hr, h, HASHES_COUNT, k);
    }
    forall x ensures x in hashes <==> IsHashOf(hr, h, x) {
      if x in hashes {
        var k: nat :| k < 6 && hashes[k] == x;
        assert x == NumberedHash(hr, h, k);
      }
    }
  }

  /** A filter is made of the hashes of exactly its tokens. */
  lemma {:induction false} HashesOfAll(hr: Hasher, hashes: seq<Word>, x: Word)
    ensures x in HashesHashes(hr, hashes) <==> exists n :: 0 <= n < |hashes| && IsHashOf(hr, hashes[n], x)
  {
    if hashes != [] {
      var front, last := hashes[..|hashes| - 1], hashes[|hashes| - 1];
      HashesOfAll(hr, front, x);
      SixHashes(hr, last);
      if n :| 0 <= n < |hashes| && IsHashOf(hr, hashes[n], x) && n < |front| {
        assert front[n] == hashes[n];
      }
    }
  }

  /** What is looked for are the hashes of exactly the given tokens. */
  lemma {:induction false} HashesOfTokens(hr: Hasher, tokens: seq<string>, x: Word)
    ensures x in TokensHashes(hr, tokens) <==> exists n :: 0 <= n < |tokens| && IsHashOf(hr, hr.ofToken(tokens[n]), x)
  {
    if tokens != [] {
      var front, last := tokens[..|tokens| - 1], tokens[|tokens| - 1];
      HashesOfTokens(hr, front, x);
      SixHashes(hr, hr.ofToken(last));
      if n :| 0 <= n < |tokens| && IsHashOf(hr, hr.ofToken(tokens[n]), x) && n < |front| {
        assert front[n] == tokens[n];
      }
    }
  }

  method AppendHashes(hr: Hasher, dst0: seq<Word>, h: Word) returns (dst: seq<Word>)
    ensures dst == dst0 + HashesOf(hr, h, HASHES_COUNT)
  {
    dst := dst0;
    var hp: Word := h;
    for k := 0 to HASHES_COUNT
      invariant hp == Add64(h, k) && dst == dst0 + HashesOf(hr, h, k)
    {
      dst := dst + [hr.ofNumber(hp)];
      hp := Add64(hp, 1);
    }
  }

  method AppendHashesHashes(hr: Hasher, dst0: seq<Word>, hashes: seq<Word>) returns (dst: seq<Word>)
    ensures dst == dst0 + HashesHashes(hr, hashes)
  {
    dst := dst0;
    for i := 0 to |hashes|
      invariant dst == dst0 + HashesHashes(hr, hashes[..i])
    {
      assert hashes[..i + 1][..i] == hashes[..i];
      dst := AppendHashes(hr, dst, hashes[i]);
    }
    assert hashes[..|hashes|] == hashes;
  }

  method AppendTokensHashes(hr: Hasher, dst0: seq<Word>, tokens: seq<string>) returns (dst: seq<Word>)
    ensures dst == dst0 + TokensHashes(hr, tokens)
  {
    dst := dst0;
    for i := 0 to |tokens|
      invariant dst == dst0 + TokensHashes(hr, tokens[..i])
    {
      assert tokens[..i + 1][..i] == tokens[..i];
      dst := AppendHashes(hr, dst, hr.ofToken(tokens[i]));
    }
    assert tokens[..|tokens|] == tokens;
  }

  // ---------- The filter ----------

  /** The bit of a hash; a filter without words has no bits. */
  predicate HasHash(bits: seq<Word>, h: Word)
    requires bits != []
  {
    IsSet(bits, h % (WORD_BITS * |bits|))
  }

  /** Sets exactly the bits of the hashes. */
  method InitBloomFilter(bits: array<Word>, hashes: seq<Word>)
    requires hashes != [] ==> bits.Length > 0
    modifies bits
    ensures forall i: nat :: IsSet(bits[..], i) <==>
              IsSet(old(bits[..]), i) || exists k :: 0 <= k < |hashes| && i == hashes[k] % (WORD_BITS * bits.Length)
  {
    var maxBits := WORD_BITS * bits.Length;
    for n := 0 to |hashes|
      invariant forall i: nat :: IsSet(bits[..], i) <==>
                  IsSet(old(bits[..]), i) || exists k :: 0 <= k < n && i == hashes[k] % maxBits
    {
      var idx := hashes[n] % maxBits;
      var i, j := idx / WORD_BITS, idx % WORD_BITS;
      ghost var before := bits[..];
      if !Bit(bits[i], j) {
        SetWord(bits[..], i, j);
        bits[i] := WithBit(bits[i], j);
      }
      assert forall b: nat :: IsSet(bits[..], b) <==> IsSet(before, b) || b == idx;
    }
  }

  lemma {:induction false} SetWord(a: seq<Word>, i: nat, j: nat)
    requires i < |a| && j < 64
    ensures WithBit(a[i], j) < 0x1_0000_0000_0000_0000
    ensures forall b: nat :: IsSet(a[i := WithBit(a[i], j)], b) <==> IsSet(a, b) || b == 64 * i + j
  {
    Power2Of64();
    WithBitSize(a[i], j, 64);
    forall b: nat ensures IsSet(a[i := WithBit(a[i], j)], b) <==> IsSet(a, b) || b == 64 * i + j {
      WithBitBits(a[i], j, b % WORD_BITS);
    }
  }

  /** The bits of the hashes are set, and no others. */
  ghost predicate BitsOfHashes(hashes: seq<Word>, bits: seq<Word>) {
    forall i: nat ::
      IsSet(bits, i) <==> bits != [] && exists k :: 0 <= k < |hashes| && i == hashes[k] % (WORD_BITS * |bits|)
  }

  /** 16 bits per token, 6 of them set. */
  method MustInitHashes(hr: Hasher, hashes: seq<Word>) returns (bits: seq<Word>)
    ensures |bits| == (|hashes| * 16 + 63) / 64 && BitsOfHashes(HashesHashes(hr, hashes), bits)
  {
    var wordsCount := (|hashes| * BITS_PER_ITEM + 63) / 64;
    var a := new Word[wordsCount](_ => 0);
    var all := AppendHashesHashes(hr, [], hashes);
    assert all == HashesHashes(hr, hashes);
    NothingSet(a[..]);
    InitBloomFilter(a, all);
    bits := a[..];
  }

  method ContainsAll(bits: seq<Word>, hashes: seq<Word>) returns (all: bool)
    ensures all == ContainsHashes(bits, hashes)
  {
    if |bits| == 0 {
      return true;
    }
    var maxBits := WORD_BITS * |bits|;
    for n := 0 to |hashes|
      invariant forall k :: 0 <= k < n ==> HasHash(bits, hashes[k])
    {
      var idx := hashes[n] % maxBits;
      if !Bit(bits[idx / WORD_BITS], idx % WORD_BITS) {
        return false;
      }
    }
    return true;
  }

  predicate ContainsHashes(bits: seq<Word>, hashes: seq<Word>) {
    bits == [] || forall k :: 0 <= k < |hashes| ==> HasHash(bits, hashes[k])
  }

  // ---------- No false negatives ----------

  ghost predicate HasToken(hr: Hasher, bits: seq<Word>, token: string) {
    ContainsHashes(bits, HashesOf(hr, hr.ofToken(token), HASHES_COUNT))
  }

  lemma {:induction false} HashIsThere(hr: Hasher, hashes: seq<Word>, i: nat, k: nat)
    requires i < |hashes| && k < HASHES_COUNT
    ensures exists n :: 0 <= n < |HashesHashes(hr, hashes)| && HashesHashes(hr, hashes)[n] == HashesOf(hr, hashes[i], HASHES_COUNT)[k]
  {
    var rest := HashesHashes(hr, hashes[..|hashes| - 1]);
    if i == |hashes| - 1 {
      assert HashesHashes(hr, hashes)[|rest| + k] == HashesOf(hr, hashes[i], HASHES_COUNT)[k];
    } else {
      HashIsThere(hr, hashes[..|hashes| - 1], i, k);
      var n :| 0 <= n < |rest| && rest[n] == HashesOf(hr, hashes[i], HASHES_COUNT)[k];
      assert HashesHashes(hr, hashes)[n] == rest[n];
    }
  }

  /** A token whose hash was added is found. */
  lemma {:induction false} AddedTokenIsFound(hr: Hasher, hashes: seq<Word>, bits: seq<Word>, token: string)
    requires hr.ofToken(token) in hashes
    requires forall n :: 0 <= n < |HashesHashes(hr, hashes)| ==> bits != [] && HasHash(bits, HashesHashes(hr, hashes)[n])
    ensures HasToken(hr, bits, token)
  {
    var i :| 0 <= i < |hashes| && hashes[i] == hr.ofToken(token);
    forall k: nat | k < HASHES_COUNT ensures bits != [] && HasHash(bits, HashesOf(hr, hashes[i], HASHES_COUNT)[k]) {
      HashIsThere(hr, hashes, i, k);
    }
  }

  /** The hashes of a list of tokens pass when every token does. */
  lemma {:induction false} TokensPass(hr: Hasher, bits: seq<Word>, tokens: seq<string>)
    requires forall i :: 0 <= i < |tokens| ==> HasToken(hr, bits, tokens[i])
    ensures ContainsHashes(bits, TokensHashes(hr, tokens))
  {
    if tokens != [] {
      TokensPass(hr, bits, tokens[..|tokens| - 1]);
      assert HasToken(hr, bits, tokens[|tokens| - 1]);
    }
  }

  // ---------- On disk ----------

  method MarshalBits(bits: seq<Word>) returns (dst: seq<BE.Byte>)
    ensures dst == MarshaledBits(bits)
  {
    dst := [];
    for i := 0 to |bits|
      invariant dst == MarshaledBits(bits[..i])
    {
      assert bits[..i + 1][..i] == bits[..i];
      dst := dst + BE.Marshal(bits[i], 8);
    }
    assert bits[..|bits|] == bits;
  }

  function MarshaledBits(bits: seq<Word>): (data: seq<BE.Byte>)
    ensures |data| == 8 * |bits|
  {
    if bits == [] then [] else MarshaledBits(bits[..|bits| - 1]) + BE.Marshal(bits[|bits| - 1], 8)
  }

  /** Reads a filter back; fails when the size is not a multiple of 8. */
  method UnmarshalBits(src: seq<BE.Byte>) returns (ok: bool, bits: seq<Word>)
    ensures ok == (|src| % 8 == 0)
    ensures ok ==> |bits| == |src| / 8
    ensures ok ==> forall written: seq<Word> :: MarshaledBits(written) == src ==> bits == written
  {
    if |src| % 8 != 0 {
      return false, [];
    }
    var wordsCount := |src| / 8;
    BE.Power256Of8();
    bits := [];
    for i := 0 to wordsCount
      invariant |bits| == i && forall k :: 0 <= k < i ==> bits[k] == BE.Unmarshal(src[8 * k..8 * k + 8])
    {
      bits := bits + [BE.Unmarshal(src[8 * i..8 * i + 8])];
    }
    ok := true;
    forall written: seq<Word> | MarshaledBits(written) == src ensures bits == written {
      forall k | 0 <= k < |written| ensures bits[k] == written[k] {
        WordAt(written, k);
        BE.RoundTrip(written[k], 8);
      }
    }
  }

  lemma {:induction false} WordAt(bits: seq<Word>, k: nat)
    requires k < |bits|
    ensures MarshaledBits(bits)[8 * k..8 * k + 8] == BE.Marshal(bits[k], 8)
  {
    var n := |bits| - 1;
    var front, last := MarshaledBits(bits[..n]), BE.Marshal(bits[n], 8);
    assert MarshaledBits(bits) == front + last;
    if k < n {
      WordAt(bits[..n], k);
      SliceOfFront(front, last, 8 * k, 8 * k + 8);
    } else {
      assert (front + last)[|front|..|front| + 8] == last;
    }
  }

  lemma {:induction false} SliceOfFront<T>(a: seq<T>, b: seq<T>, i: nat, j: nat)
    requires i <= j <= |a|
    ensures (a + b)[i..j] == a[i..j]
  {
  }
}
