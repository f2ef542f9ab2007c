/** Encoding the values of a column as bytes and decoding them. */
module StringsBlock {
  import BE = BigEndian

  type Byte = BE.Byte
  type Bytes = seq<Byte>

  const UINT64_SIZE: nat := 0x1_0000_0000_0000_0000

  datatype Result<T> = Ok(value: T) | Err
  {
    predicate IsFailure() {
      Err?
    }

    function PropagateFailure<U>(): Result<U>
      requires Err?
    {
      Err
    }

    function Extract(): T
      requires Ok?
    {
      value
    }
  }

  /** zstd: a block can be compressed and decompressed again. */
  datatype Compression = Compression(compress: (Bytes, nat) -> Bytes, decompress: Bytes -> Result<Bytes>)

  ghost predicate Invertible(z: Compression) {
    forall b, level :: z.decompress(z.compress(b, level)) == Ok(b)
  }

  // ---------- Variable-length integers ----------

  function MarshalVarUint64(n: nat): (data: Bytes)
    ensures |data| > 0
  {
    if n < 128 then [n] else [n % 128 + 128] + MarshalVarUint64(n / 128)
  }

  /** The number and how many bytes it took; 0 bytes stand for an error. */
  function UnmarshalVarUint64(src: Bytes): (r: (nat, nat))
    ensures r.1 <= |src|
  {
    if src == [] then (0, 0)
    else if src[0] < 128 then (src[0], 1)
    else
      var rest := UnmarshalVarUint64(src[1..]);
      if rest.1 == 0 then (0, 0) else (128 * rest.0 + (src[0] - 128), rest.1 + 1)
  }

  lemma {:induction false} VarUint64RoundTrip(n: nat, tail: Bytes)
    ensures UnmarshalVarUint64(MarshalVarUint64(n) + tail) == (n, |MarshalVarUint64(n)|)
  {
    if n >= 128 {
      VarUint64RoundTrip(n / 128, tail);
      assert (MarshalVarUint64(n) + tail)[1..] == MarshalVarUint64(n / 128) + tail;
    }
  }

  // ---------- Blocks of bytes ----------

  const TYPE_PLAIN: Byte := 0
  const TYPE_ZSTD: Byte := 1

  function GetCompressLevel(dataLen: nat): nat {
    if dataLen <= 512 then 1 else if dataLen <= 4 * 1024 then 2 else 3
  }

  function BytesBlock(z: Compression, src: Bytes): Bytes {
    if |src| < 128 then [TYPE_PLAIN, |src|] + src
    else
      var compressed := z.compress(src, GetCompressLevel(|src|));
      [TYPE_ZSTD] + MarshalVarUint64(|compressed|) + compressed
  }

  /** The bytes and what follows the block. */
  function ReadBytesBlock(z: Compression, src: Bytes): Result<(Bytes, Bytes)> {
    if |src| < 1 then Err
    else if src[0] == TYPE_PLAIN then
      if |src| < 2 then Err
      else if |src| - 2 < src[1] then Err
      else Ok((src[2..2 + src[1]], src[2 + src[1]..]))
    else if src[0] == TYPE_ZSTD then
      var (blockLen, nSize) := UnmarshalVarUint64(src[1..]);
      if nSize == 0 then Err
      else if |src| - 1 - nSize < blockLen then Err
      else
        match z.decompress(src[1 + nSize..1 + nSize + blockLen])
        case Err => Err
        case Ok(data) => Ok((data, src[1 + nSize + blockLen..]))
    else Err
  }

  lemma {:induction false} CompressedBlockRoundTrip(z: Compression, compressed: Bytes, tail: Bytes)
    requires z.decompress(compressed).Ok?
    ensures ReadBytesBlock(z, [TYPE_ZSTD] + MarshalVarUint64(|compressed|) + compressed + tail) == Ok((z.decompress(compressed).value, tail))
  {
    var size := MarshalVarUint64(|compressed|);
    var data := [TYPE_ZSTD] + size + compressed + tail;
    VarUint64RoundTrip(|compressed|, compressed + tail);
    assert data[1..] == size + (compressed + tail);
    assert data[1 + |size|..1 + |size| + |compressed|] == compressed;
    assert data[1 + |size| + |compressed|..] == tail;
  }

  lemma {:induction false} BytesBlockRoundTrip(z: Compression, src: Bytes, tail: Bytes)
    requires Invertible(z)
    ensures ReadBytesBlock(z, BytesBlock(z, src) + tail) == Ok((src, tail))
  {
    if |src| < 128 {
      var data := BytesBlock(z, src) + tail;
      assert data[2..2 + |src|] == src && data[2 + |src|..] == tail;
    } else {
      CompressedBlockRoundTrip(z, z.compress(src, GetCompressLevel(|src|)), tail);
    }
  }

  method MarshalBytesBlock(z: Compression, dst: Bytes, src: Bytes) returns (r: Bytes)
    ensures r == dst + BytesBlock(z, src)
  {
    if |src| < 128 {
      r := dst + [TYPE_PLAIN];
      r := r + [|src|];
      return r + src;
    }
    r := dst + [TYPE_ZSTD];
    var compressed := z.compress(src, GetCompressLevel(|src|));
    r := r + MarshalVarUint64(|compressed|);
    r := r + compressed;
  }

  /** The data is appended to dst; an error leaves dst as it was. */
  method UnmarshalBytesBlock(z: Compression, dst: Bytes, src: Bytes) returns (ok: bool, r: Bytes, tail: Bytes)
    ensures ok <==> ReadBytesBlock(z, src).Ok?
    ensures r == if ok then dst + ReadBytesBlock(z, src).value.0 else dst
    ensures ok ==> tail == ReadBytesBlock(z, src).value.1
  {
    r, tail := dst, src;
    if |src| < 1 {
      return false, r, tail;
    }
    var blockType := src[0];
    tail := src[1..];
    if blockType == TYPE_PLAIN {
      if |tail| < 1 {
        return false, r, tail;
      }
      var blockLen := tail[0];
      tail := tail[1..];
      if |tail| < blockLen {
        return false, r, tail;
      }
      assert tail == src[2..];
      r := dst + tail[..blockLen];
      return true, r, tail[blockLen..];
    } else if blockType == TYPE_ZSTD {
      var (blockLen, nSize) := UnmarshalVarUint64(tail);
      if nSize == 0 {
        return false, r, tail;
      }
      tail := tail[nSize..];
      if |tail| < blockLen {
        return false, r, tail;
      }
      assert tail == src[1 + nSize..];
      var compressedBlock := tail[..blockLen];
      tail := tail[blockLen..];
      assert compressedBlock == src[1 + nSize..1 + nSize + blockLen];
      var data := z.decompress(compressedBlock);
      if data.Err? {
        return false, r, tail;
      }
      return true, dst + data.value, tail;
    } else {
      return false, r, tail;
    }
  }

  // ---------- Blocks of integers ----------

  predicate AreConst<T(==)>(a: seq<T>) {
    a != [] && forall i :: 0 <= i < |a| ==> a[i] == a[0]
  }

  /** The type of a block of integers: 0 to 3 for 8 to 64 bits. */
  function WidthType(nMax: nat): (t: nat)
    ensures t < 4
  {
    if nMax < 0x100 then 0 else if nMax < 0x1_0000 then 1 else if nMax < 0x1_0000_0000 then 2 else 3
  }

  function Width(t: nat): (w: nat)
    requires t < 4
    ensures w > 0
  {
    if t == 0 then 1 else if t == 1 then 2 else if t == 2 then 4 else 8
  }

  const CONST_TYPE: nat := 4

  function Max(a: seq<nat>): nat {
    if a == [] then 0
    else
      var rest := Max(a[..|a| - 1]);
      if a[|a| - 1] > rest then a[|a| - 1] else rest
  }

  function FixedWidth(a: seq<nat>, w: nat): Bytes {
    if a == [] then [] else FixedWidth(a[..|a| - 1], w) + BE.Marshal(a[|a| - 1], w)
  }

  function Uint64Items(a: seq<nat>): Bytes {
    var t := WidthType(Max(a));
    if |a| >= 2 && AreConst(a) then [t + CONST_TYPE] + BE.Marshal(a[0], Width(t))
    else [t] + FixedWidth(a, Width(t))
  }

  function ReadUint64Items(src: Bytes, n: nat): Result<seq<nat>> {
    if |src| < 1 then Err
    else
      var (t, data) := (src[0], src[1..]);
      if t < CONST_TYPE then
        if |data| != Width(t) * n then Err
        else Ok(ReadFixedWidth(data, Width(t), n))
      else if t < 2 * CONST_TYPE then
        if |data| != Width(t - CONST_TYPE) then Err
        else Ok(seq(n, _ => BE.Unmarshal(data)))
      else Err
  }

  function ReadFixedWidth(data: Bytes, w: nat, n: nat): seq<nat>
    decreases n
  {
    if n == 0 || |data| < w then []
    else ReadFixedWidth(data[..|data| - w], w, n - 1) + [BE.Unmarshal(data[|data| - w..])]
  }

  lemma {:induction false} LastOf<T>(a: seq<T>)
    requires a != []
    ensures a[..|a| - 1] + [a[|a| - 1]] == a
  {
  }

  lemma {:induction false} LastItemRead(front: Bytes, item: nat, w: nat, n: nat)
    requires item < BE.Power256(w)
    ensures ReadFixedWidth(front + BE.Marshal(item, w), w, n + 1) == ReadFixedWidth(front, w, n) + [item]
  {
    BE.RoundTrip(item, w);
    var last := BE.Marshal(item, w);
    var data := front + last;
    assert data[..|data| - w] == front && data[|data| - w..] == last;
  }

  lemma {:induction false} FixedWidthRoundTrip(a: seq<nat>, w: nat)
    requires Fit(a, w)
    ensures ReadFixedWidth(FixedWidth(a, w), w, |a|) == a
  {
    if a != [] {
      var n := |a| - 1;
      LastOf(a);
      FixedWidthRoundTrip(a[..n], w);
      LastItemRead(FixedWidth(a[..n], w), a[n], w, n);
    }
  }

  lemma {:induction false} FixedWidthLen(a: seq<nat>, w: nat)
    ensures |FixedWidth(a, w)| == w * |a|
  {
    if a != [] {
      FixedWidthLen(a[..|a| - 1], w);
      Distribute(w, |a| - 1, 1);
    }
  }

  method AreConstValues<T(==)>(a: seq<T>) returns (yes: bool)
    ensures yes == AreConst(a)
  {
    if |a| == 0 {
      return false;
    }
    var v := a[0];
    for i := 1 to |a|
      invariant forall j :: 0 <= j < i ==> a[j] == v
    {
      if v != a[i] {
        return false;
      }
    }
    return true;
  }

  method LargestItem(a: seq<nat>) returns (nMax: nat)
    ensures nMax == Max(a)
  {
    nMax := 0;
    for i := 0 to |a|
      invariant nMax == Max(a[..i])
    {
      assert a[..i + 1][..i] == a[..i];
      if a[i] > nMax {
        nMax := a[i];
      }
    }
    assert a[..|a|] == a;
  }

  method MarshalItems(dst: Bytes, a: seq<nat>, w: nat) returns (r: Bytes)
    ensures r == dst + FixedWidth(a, w)
  {
    r := dst;
    for i := 0 to |a|
      invariant r == dst + FixedWidth(a[..i], w)
    {
      assert a[..i + 1][..i] == a[..i];
      r := r + BE.Marshal(a[i], w);
    }
    assert a[..|a|] == a;
  }

  method MarshalUint64Items(dst: Bytes, a: seq<nat>) returns (r: Bytes)
    ensures r == dst + Uint64Items(a)
  {
    var nMax := LargestItem(a);
    var areConsts := false;
    if |a| >= 2 {
      areConsts := AreConstValues(a);
    }
    var t := WidthType(nMax);
    if areConsts {
      r := dst + [t + CONST_TYPE];
      r := r + BE.Marshal(a[0], Width(t));
      Assoc(dst, [t + CONST_TYPE], BE.Marshal(a[0], Width(t)));
    } else {
      r := dst + [t];
      r := MarshalItems(r, a, Width(t));
      Assoc(dst, [t], FixedWidth(a, Width(t)));
    }
  }

  method UnmarshalItems(src: Bytes, w: nat, dstA: array<nat>)
    requires |src| == w * dstA.Length
    modifies dstA
    ensures dstA[..] == ReadFixedWidth(src, w, dstA.Length)
  {
    for i := 0 to dstA.Length
      invariant w * i <= |src|
      invariant dstA[..i] == ReadFixedWidth(src[..w * i], w, i)
    {
      var idx := w * i;
      NextItemFits(w, i, dstA.Length);
      dstA[i] := BE.Unmarshal(src[idx..idx + w]);
      var done := src[..w * (i + 1)];
      assert done[..|done| - w] == src[..idx] && done[|done| - w..] == src[idx..idx + w];
      assert dstA[..i + 1] == dstA[..i] + [dstA[i]];
    }
    assert dstA[..dstA.Length] == dstA[..] && src[..w * dstA.Length] == src;
  }

  lemma {:induction false} NextItemFits(w: nat, i: nat, n: nat)
    requires i < n
    ensures w * (i + 1) == w * i + w <= w * n
  {
    Distribute(w, i, n - i);
    Distribute(w, 1, n - i - 1);
    Distribute(w, i, 1);
  }

  lemma {:induction false} Distribute(w: nat, a: nat, b: nat)
    ensures w * (a + b) == w * a + w * b
    ensures w * b >= 0
  {
  }

  /** The items, or an error; the items come after those already in dst. */
  method UnmarshalUint64Items(dst: seq<nat>, src: Bytes, itemsCount: nat) returns (ok: bool, r: seq<nat>)
    ensures ok <==> ReadUint64Items(src, itemsCount).Ok?
    ensures ok ==> r == dst + ReadUint64Items(src, itemsCount).value
  {
    if |src| < 1 {
      return false, dst;
    }
    var blockType, data := src[0], src[1..];
    var dstA := new nat[itemsCount];
    if blockType < CONST_TYPE {
      if |data| != Width(blockType) * itemsCount {
        return false, dst;
      }
      UnmarshalItems(data, Width(blockType), dstA);
    } else if blockType < 2 * CONST_TYPE {
      if |data| != Width(blockType - CONST_TYPE) {
        return false, dst;
      }
      FillWith(dstA, BE.Unmarshal(data));
    } else {
      return false, dst;
    }
    return true, dst + dstA[..];
  }

  method FillWith<T>(dstA: array<T>, v: T)
    modifies dstA
    ensures dstA[..] == seq(dstA.Length, _ => v)
  {
    for i := 0 to dstA.Length
      invariant forall j :: 0 <= j < i ==> dstA[j] == v
    {
      dstA[i] := v;
    }
  }

  lemma {:induction false} MaxBounds(a: seq<nat>)
    ensures forall i :: 0 <= i < |a| ==> a[i] <= Max(a)
    ensures a == [] || Max(a) in a || Max(a) == 0
  {
    if a != [] {
      MaxBounds(a[..|a| - 1]);
      assert a == a[..|a| - 1] + [a[|a| - 1]];
    }
  }

  lemma {:induction false} WidthSuffices(nMax: nat)
    requires nMax < UINT64_SIZE
    ensures nMax < BE.Power256(Width(WidthType(nMax)))
  {
    BE.Power256Of8();
  }

  ghost predicate Fit(a: seq<nat>, w: nat) {
    forall i :: 0 <= i < |a| ==> a[i] < BE.Power256(w)
  }

  lemma {:induction false} ItemsFit(a: seq<nat>)
    requires forall i :: 0 <= i < |a| ==> a[i] < UINT64_SIZE
    ensures Fit(a, Width(WidthType(Max(a))))
  {
    MaxBounds(a);
    if a != [] {
      assert Max(a) < UINT64_SIZE;
      WidthSuffices(Max(a));
    }
  }

  lemma {:induction false} ConstItemsRead(a: seq<nat>, t: nat)
    requires t < CONST_TYPE && AreConst(a) && Fit(a, Width(t))
    ensures ReadUint64Items([t + CONST_TYPE] + BE.Marshal(a[0], Width(t)), |a|) == Ok(a)
  {
    var data := BE.Marshal(a[0], Width(t));
    var src := [t + CONST_TYPE] + data;
    assert src[0] == t + CONST_TYPE && src[1..] == data;
    BE.RoundTrip(a[0], Width(t));
    assert seq(|a|, _ => BE.Unmarshal(data)) == a;
  }

  lemma {:induction false} OtherItemsRead(a: seq<nat>, t: nat)
    requires t < CONST_TYPE && Fit(a, Width(t))
    ensures ReadUint64Items([t] + FixedWidth(a, Width(t)), |a|) == Ok(a)
  {
    var src := [t] + FixedWidth(a, Width(t));
    assert src[0] == t && src[1..] == FixedWidth(a, Width(t));
    FixedWidthRoundTrip(a, Width(t));
    FixedWidthLen(a, Width(t));
  }

  /** For all eight kinds of blocks. */
  lemma {:induction false} Uint64ItemsRoundTrip(a: seq<nat>)
    requires forall i :: 0 <= i < |a| ==> a[i] < UINT64_SIZE
    ensures ReadUint64Items(Uint64Items(a), |a|) == Ok(a)
  {
    var t := WidthType(Max(a));
    ItemsFit(a);
    if |a| >= 2 && AreConst(a) {
      ConstItemsRead(a, t);
    } else {
      OtherItemsRead(a, t);
    }
  }

  /** Of 1, 2, 4 and 8 bytes the smallest width is used that holds all items; two or more equal items take one item.
      The first byte tells both. */
  lemma {:induction false} Uint64ItemsAreSmall(a: seq<nat>) returns (w: nat)
    requires forall i :: 0 <= i < |a| ==> a[i] < UINT64_SIZE
    ensures w in {1, 2, 4, 8} && Fit(a, w) && forall v :: v in {1, 2, 4, 8} && Fit(a, v) ==> w <= v
    ensures var single := |a| >= 2 && AreConst(a);
            && |Uint64Items(a)| == 1 + (if single then w else w * |a|)
            && Uint64Items(a)[0] == (if w == 1 then 0 else if w == 2 then 1 else if w == 4 then 2 else 3) + (if single then 4 else 0)
  {
    var t := WidthType(Max(a));
    w := Width(t);
    ItemsFit(a);
    FixedWidthLen(a, w);
    forall v | v in {1, 2, 4, 8} && Fit(a, v) ensures w <= v {
      MaxFits(a, v);
      BE.Power256Of8();
    }
  }

  lemma {:induction false} MaxFits(a: seq<nat>, w: nat)
    requires Fit(a, w)
    ensures Max(a) < BE.Power256(w)
  {
    if a != [] {
      MaxFits(a[..|a| - 1], w);
    }
  }

  function ReadUint64Block(z: Compression, src: Bytes, n: nat): Result<(seq<nat>, Bytes)> {
    match ReadBytesBlock(z, src)
    case Err => Err
    case Ok((data, tail)) =>
      match ReadUint64Items(data, n)
      case Err => Err
      case Ok(a) => Ok((a, tail))
  }

  method MarshalUint64Block(z: Compression, dst: Bytes, a: seq<nat>) returns (r: Bytes)
    ensures r == dst + BytesBlock(z, Uint64Items(a))
  {
    var bb := MarshalUint64Items([], a);
    assert bb == Uint64Items(a);
    r := MarshalBytesBlock(z, dst, bb);
  }

  method UnmarshalUint64Block(z: Compression, src: Bytes, itemsCount: nat) returns (ok: bool, a: seq<nat>, tail: Bytes)
    ensures ok <==> ReadUint64Block(z, src, itemsCount).Ok?
    ensures ok ==> (a, tail) == ReadUint64Block(z, src, itemsCount).value
  {
    var bb;
    a := [];
    ok, bb, tail := UnmarshalBytesBlock(z, [], src);
    if ok {
      var block := ReadBytesBlock(z, src).value.0;
      assert bb == block;
      ok, a := UnmarshalUint64Items([], bb, itemsCount);
      if ok {
        assert a == ReadUint64Items(block, itemsCount).value;
      }
    }
  }

  // ---------- Blocks of strings ----------

  function Lens(a: seq<Bytes>): (lens: seq<nat>)
    ensures |lens| == |a| && forall i :: 0 <= i < |a| ==> lens[i] == |a[i]|
  {
    if a == [] then [] else [|a[0]|] + Lens(a[1..])
  }

  function Concat(a: seq<Bytes>): Bytes {
    if a == [] then [] else a[0] + Concat(a[1..])
  }

  function StringsOf(z: Compression, a: seq<Bytes>): Bytes {
    BytesBlock(z, Uint64Items(Lens(a))) + BytesBlock(z, if AreConst(a) then a[0] else Concat(a))
  }

  /** Cuts the data into strings of the given lengths; what is left over is not looked at. */
  function Cut(data: Bytes, lens: seq<nat>): Result<seq<Bytes>> {
    if lens == [] then Ok([])
    else if |data| < lens[0] then Err
    else
      match Cut(data[lens[0]..], lens[1..])
      case Err => Err
      case Ok(rest) => Ok([data[..lens[0]]] + rest)
  }

  function DecodeStrings(data: Bytes, lens: seq<nat>): Result<seq<Bytes>> {
    if |lens| >= 2 && AreConst(lens) && |data| == lens[0] then Ok(seq(|lens|, _ => data))
    else Cut(data, lens)
  }

  function ReadStringsBlock(z: Compression, src: Bytes, n: nat): Result<seq<Bytes>> {
    match ReadUint64Block(z, src, n)
    case Err => Err
    case Ok((lens, src')) =>
      match ReadBytesBlock(z, src')
      case Err => Err
      case Ok((data, tail)) => if |tail| > 0 then Err else DecodeStrings(data, lens)
  }

  method MarshalStringsBlock(z: Compression, dst: Bytes, a: seq<Bytes>) returns (r: Bytes)
    ensures r == dst + StringsOf(z, a)
  {
    r := MarshalLens(z, dst, a);
    var areConsts := AreConstValues(a);
    var data;
    if areConsts {
      data := a[0];
    } else {
      data := ConcatStrings(a);
    }
    r := MarshalBytesBlock(z, r, data);
    Assoc(dst, BytesBlock(z, Uint64Items(Lens(a))), BytesBlock(z, data));
  }

  method MarshalLens(z: Compression, dst: Bytes, a: seq<Bytes>) returns (r: Bytes)
    ensures r == dst + BytesBlock(z, Uint64Items(Lens(a)))
  {
    var aLens := new nat[|a|];
    for i := 0 to |a|
      invariant forall j :: 0 <= j < i ==> aLens[j] == |a[j]|
    {
      aLens[i] := |a[i]|;
    }
    assert aLens[..] == Lens(a);
    r := MarshalUint64Block(z, dst, aLens[..]);
  }

  method ConcatStrings(a: seq<Bytes>) returns (b: Bytes)
    ensures b == Concat(a)
  {
    b := [];
    for i := 0 to |a|
      invariant b + Concat(a[i..]) == Concat(a)
    {
      assert a[i..][0] == a[i] && a[i..][1..] == a[i + 1..];
      b := b + a[i];
    }
  }

  lemma {:induction false} Assoc(a: Bytes, b: Bytes, c: Bytes)
    ensures a + b + c == a + (b + c)
  {
  }

  /** Cuts the data by the lengths into dstA. */
  method CutInto(src: Bytes, aLens: seq<nat>, dstA: array<Bytes>) returns (ok: bool)
    requires dstA.Length == |aLens|
    modifies dstA
    ensures ok <==> Cut(src, aLens).Ok?
    ensures ok ==> dstA[..] == Cut(src, aLens).value
  {
    var data := src;
    assert CutTo(src, aLens, [], src) by {
      assert aLens[0..] == aLens;
      if Cut(src, aLens).Ok? {
        assert [] + Cut(src, aLens).value == Cut(src, aLens).value;
      }
    }
    assert dstA[..0] == [];
    for i := 0 to dstA.Length
      invariant CutTo(src, aLens, dstA[..i], data)
    {
      var sLen := aLens[i];
      CutStep(src, aLens, dstA[..i], data);
      if |data| < sLen {
        return false;
      }
      dstA[i] := data[..sLen];
      data := data[sLen..];
      assert dstA[..i + 1] == dstA[..i] + [dstA[i]];
    }
    assert dstA[..dstA.Length] == dstA[..];
    return true;
  }

  /** The strings cut so far, and what is left to be cut. */
  ghost predicate CutTo(src: Bytes, lens: seq<nat>, done: seq<Bytes>, left: Bytes) {
    |done| <= |lens| &&
    Cut(src, lens) ==
      match Cut(left, lens[|done|..]) {
        case Err => Err
        case Ok(rest) => Ok(done + rest)
      }
  }

  lemma {:induction false} CutStep(src: Bytes, lens: seq<nat>, done: seq<Bytes>, left: Bytes)
    requires CutTo(src, lens, done, left) && |done| < |lens|
    ensures |left| < lens[|done|] ==> Cut(src, lens).Err?
    ensures |left| >= lens[|done|] ==> CutTo(src, lens, done + [left[..lens[|done|]]], left[lens[|done|]..])
  {
    assert lens[|done|..][1..] == lens[|done| + 1..];
    if |left| >= lens[|done|] && Cut(left, lens[|done|..]).Ok? {
      var rest := Cut(left[lens[|done|]..], lens[|done| + 1..]).value;
      assert done + ([left[..lens[|done|]]] + rest) == done + [left[..lens[|done|]]] + rest;
    }
  }

  class StringsBlockUnmarshaler {
    var data: Bytes

    constructor ()
      ensures data == []
    {
      data := [];
    }

    /** The decoded bytes are kept after those of earlier blocks. */
    method Unmarshal(z: Compression, dst: seq<Bytes>, src: Bytes, itemsCount: nat) returns (ok: bool, r: seq<Bytes>)
      modifies this
      ensures ok <==> ReadStringsBlock(z, src, itemsCount).Ok?
      ensures ok ==> r == dst + ReadStringsBlock(z, src, itemsCount).value
      ensures ok ==> data == old(data) + ReadBytesBlock(z, ReadUint64Block(z, src, itemsCount).value.1).value.0
    {
      r := dst;
      var aLens, tail;
      ok, aLens, tail := UnmarshalUint64Block(z, src, itemsCount);
      if !ok {
        return;
      }
      var dataLen := |data|;
      var newData;
      ok, newData, tail := UnmarshalBytesBlock(z, data, tail);
      data := newData;
      if !ok {
        return;
      }
      if |tail| > 0 {
        return false, dst;
      }
      var block := data[dataLen..];
      var dstA := new Bytes[|aLens|];
      var areConsts := AreConstValues(aLens);
      if |aLens| >= 2 && areConsts && |block| == aLens[0] {
        FillWith(dstA, block);
      } else {
        ok := CutInto(block, aLens, dstA);
      }
      r := dst + dstA[..];
    }
  }

  lemma {:induction false} FirstIsCut(b: Bytes, data: Bytes, lens: seq<nat>)
    requires Cut(data, lens).Ok?
    ensures Cut(b + data, [|b|] + lens) == Ok([b] + Cut(data, lens).value)
  {
    var all, allLens := b + data, [|b|] + lens;
    assert allLens[1..] == lens && all[|b|..] == data && all[..|b|] == b;
  }

  lemma {:induction false} CutRoundTrip(a: seq<Bytes>)
    ensures Cut(Concat(a), Lens(a)) == Ok(a)
  {
    if a != [] {
      CutRoundTrip(a[1..]);
      FirstIsCut(a[0], Concat(a[1..]), Lens(a[1..]));
      assert [a[0]] + a[1..] == a;
    }
  }

  lemma {:induction false} ConcatLen(a: seq<Bytes>, len: nat)
    requires forall i :: 0 <= i < |a| ==> |a[i]| == len
    ensures |Concat(a)| == |a| * len
  {
    if a != [] {
      ConcatLen(a[1..], len);
      assert |a| * len == (|a| - 1) * len + len;
    }
  }

  /** The shortcut for constant strings is never taken for others: strings of one length that take as
      many bytes as one of them are all empty. */
  lemma {:induction false} ShortcutIsForConst(a: seq<Bytes>)
    requires !AreConst(a)
    ensures !(|a| >= 2 && AreConst(Lens(a)) && |Concat(a)| == Lens(a)[0])
  {
    if |a| >= 2 && AreConst(Lens(a)) {
      var len := |a[0]|;
      assert forall i :: 0 <= i < |a| ==> Lens(a)[i] == len;
      assert forall i :: 0 <= i < |a| ==> |a[i]| == Lens(a)[i];
      ConcatLen(a, len);
      if len > 0 {
        MoreThanOne(|a|, len);
      }
    }
  }

  lemma {:induction false} MoreThanOne(n: nat, len: nat)
    requires n >= 2 && len > 0
    ensures n * len > len
  {
  }

  /** Every list of strings is read back as it was written. */
  lemma {:induction false} StringsBlockRoundTrip(z: Compression, a: seq<Bytes>)
    requires Invertible(z) && forall i :: 0 <= i < |a| ==> |a[i]| < UINT64_SIZE
    ensures ReadStringsBlock(z, StringsOf(z, a), |a|) == Ok(a)
  {
    var data := if AreConst(a) then a[0] else Concat(a);
    var tail := BytesBlock(z, data);
    BytesBlockRoundTrip(z, Uint64Items(Lens(a)), tail);
    Uint64ItemsRoundTrip(Lens(a));
    BytesBlockRoundTrip(z, data, []);
    assert tail + [] == tail;
    StringsDecoded(a, data);
  }

  lemma {:induction false} StringsDecoded(a: seq<Bytes>, data: Bytes)
    requires data == if AreConst(a) then a[0] else Concat(a)
    ensures DecodeStrings(data, Lens(a)) == Ok(a)
  {
    if AreConst(a) {
      if |a| >= 2 {
        assert Lens(a)[0] == |data|;
        assert seq(|a|, _ => data) == a;
      } else {
        assert a == [data] && Lens(a) == [|data|];
        assert Concat(a) == data;
        CutRoundTrip(a);
      }
    } else {
      ShortcutIsForConst(a);
      CutRoundTrip(a);
    }
  }
}
