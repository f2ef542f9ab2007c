/** The headers inside the files of a part: how they are written and read. */
module PartHeaders {
  import BE = BigEndian
  import opened StringsBlock

  const MAX_ROWS_PER_BLOCK: nat := 8 * 1024 * 1024
  const MAX_COLUMNS_PER_BLOCK: nat := 2000
  const MAX_BLOCK_SIZE: nat := 8 * 1024 * 1024

  // ---------- Numbers and byte strings ----------

  /** Reads w bytes. */
  function ReadFixed(src: Bytes, w: nat): Result<(nat, Bytes)> {
    if |src| < w then Err else Ok((BE.Unmarshal(src[..w]), src[w..]))
  }

  lemma {:induction false} FixedRoundTrip(n: nat, w: nat, tail: Bytes)
    requires n < BE.Power256(w)
    ensures ReadFixed(BE.Marshal(n, w) + tail, w) == Ok((n, tail))
  {
    BE.RoundTrip(n, w);
    var data := BE.Marshal(n, w) + tail;
    assert data[..w] == BE.Marshal(n, w) && data[w..] == tail;
  }

  function ReadVar(src: Bytes): (r: Result<(nat, Bytes)>)
    ensures r.Ok? ==> |r.value.1| < |src|
  {
    var (n, nSize) := UnmarshalVarUint64(src);
    if nSize == 0 then Err else Ok((n, src[nSize..]))
  }

  lemma {:induction false} VarRoundTrip(n: nat, tail: Bytes)
    ensures ReadVar(MarshalVarUint64(n) + tail) == Ok((n, tail))
  {
    VarUint64RoundTrip(n, tail);
    assert (MarshalVarUint64(n) + tail)[|MarshalVarUint64(n)|..] == tail;
  }

  function MarshalBytes(b: Bytes): Bytes {
    MarshalVarUint64(|b|) + b
  }

  function ReadBytes(src: Bytes): Result<(Bytes, Bytes)> {
    var (n, src1) :- ReadVar(src);
    if |src1| < n then Err else Ok((src1[..n], src1[n..]))
  }

  lemma {:induction false} BytesRoundTrip(b: Bytes, tail: Bytes)
    ensures ReadBytes(MarshalBytes(b) + tail) == Ok((b, tail))
  {
    Assoc(MarshalVarUint64(|b|), b, tail);
    VarRoundTrip(|b|, b + tail);
    assert (b + tail)[..|b|] == b && (b + tail)[|b|..] == tail;
  }

  type Int64 = t: int | -0x8000_0000_0000_0000 <= t < 0x8000_0000_0000_0000

  function ToUint64(t: Int64): nat {
    if t < 0 then t + UINT64_SIZE else t
  }

  function ToInt64(n: nat): Int64
    requires n < UINT64_SIZE
  {
    if n < 0x8000_0000_0000_0000 then n else n - UINT64_SIZE
  }

  const UINT64_LEN: nat := 8

  function MarshalUint64(n: nat): Bytes {
    BE.Marshal(n, UINT64_LEN)
  }

  function MarshalInt64(t: Int64): Bytes {
    BE.Marshal(ToUint64(t), UINT64_LEN)
  }

  function ReadUint64(src: Bytes): (r: Result<(nat, Bytes)>)
    ensures r.Ok? ==> r.value.0 < UINT64_SIZE
  {
    BE.Power256Of8();
    ReadFixed(src, UINT64_LEN)
  }

  function ReadInt64(src: Bytes): Result<(Int64, Bytes)> {
    var (n, tail) :- ReadUint64(src);
    Ok((ToInt64(n), tail))
  }

  lemma {:induction false} Uint64RoundTrip(n: nat, tail: Bytes)
    requires n < UINT64_SIZE
    ensures ReadUint64(MarshalUint64(n) + tail) == Ok((n, tail))
  {
    BE.Power256Of8();
    FixedRoundTrip(n, UINT64_LEN, tail);
  }

  lemma {:induction false} Int64RoundTrip(t: Int64, tail: Bytes)
    ensures ReadInt64(MarshalInt64(t) + tail) == Ok((t, tail))
  {
    Uint64RoundTrip(ToUint64(t), tail);
  }

  /** A tenant and a stream hash as one number of 24 bytes. */
  type StreamID = nat

  const STREAM_ID_SIZE: nat := 24

  ghost predicate ValidStreamID(sid: StreamID) {
    sid < BE.Power256(STREAM_ID_SIZE)
  }

  // ---------- Headers of index blocks ----------

  datatype IndexBlockHeader = IndexBlockHeader(streamID: StreamID, minTimestamp: Int64, maxTimestamp: Int64, indexBlockOffset: nat, indexBlockSize: nat)

  ghost predicate ValidIndexBlockHeader(ih: IndexBlockHeader) {
    ValidStreamID(ih.streamID) && ih.indexBlockOffset < UINT64_SIZE && ih.indexBlockSize < UINT64_SIZE
  }

  function MarshalIndexBlockHeader(ih: IndexBlockHeader): Bytes {
    BE.Marshal(ih.streamID, STREAM_ID_SIZE) + (MarshalInt64(ih.minTimestamp) + (MarshalInt64(ih.maxTimestamp) +
    (MarshalUint64(ih.indexBlockOffset) + MarshalUint64(ih.indexBlockSize))))
  }

  function ReadIndexBlockHeader(src: Bytes): (r: Result<(IndexBlockHeader, Bytes)>)
    ensures r.Ok? ==> |r.value.1| < |src|
  {
    var (sid, src1) :- ReadFixed(src, STREAM_ID_SIZE);
    var (minTimestamp, src2) :- ReadInt64(src1);
    var (maxTimestamp, src3) :- ReadInt64(src2);
    var (offset, src4) :- ReadUint64(src3);
    var (size, tail) :- ReadUint64(src4);
    Ok((IndexBlockHeader(sid, minTimestamp, maxTimestamp, offset, size), tail))
  }

  lemma {:induction false} IndexBlockHeaderRoundTrip(ih: IndexBlockHeader, tail: Bytes)
    requires ValidIndexBlockHeader(ih)
    ensures ReadIndexBlockHeader(MarshalIndexBlockHeader(ih) + tail) == Ok((ih, tail))
    ensures |MarshalIndexBlockHeader(ih)| == 56
  {
    var e := MarshalUint64(ih.indexBlockSize);
    var d := MarshalUint64(ih.indexBlockOffset);
    var c, b := MarshalInt64(ih.maxTimestamp), MarshalInt64(ih.minTimestamp);
    var a := BE.Marshal(ih.streamID, STREAM_ID_SIZE);
    Assoc(d, e, tail);
    Assoc(c, d + e, tail);
    Assoc(b, c + (d + e), tail);
    Assoc(a, b + (c + (d + e)), tail);
    FixedRoundTrip(ih.streamID, STREAM_ID_SIZE, b + (c + (d + (e + tail))));
    Int64RoundTrip(ih.minTimestamp, c + (d + (e + tail)));
    Int64RoundTrip(ih.maxTimestamp, d + (e + tail));
    Uint64RoundTrip(ih.indexBlockOffset, e + tail);
    Uint64RoundTrip(ih.indexBlockSize, tail);
  }

  function MarshalIndexBlockHeaders(ihs: seq<IndexBlockHeader>): Bytes {
    if ihs == [] then [] else MarshalIndexBlockHeaders(ihs[..|ihs| - 1]) + MarshalIndexBlockHeader(ihs[|ihs| - 1])
  }

  function ReadIndexBlockHeaders(src: Bytes): Result<seq<IndexBlockHeader>>
    decreases |src|
  {
    if src == [] then Ok([])
    else
      var (ih, tail) :- ReadIndexBlockHeader(src);
      var rest :- ReadIndexBlockHeaders(tail);
      Ok([ih] + rest)
  }

  predicate OrderedByStream(ihs: seq<IndexBlockHeader>) {
    forall i :: 1 <= i < |ihs| ==> ihs[i - 1].streamID <= ihs[i].streamID
  }

  function UnmarshalIndexBlockHeaders(src: Bytes): Result<seq<IndexBlockHeader>> {
    var ihs :- ReadIndexBlockHeaders(src);
    if OrderedByStream(ihs) then Ok(ihs) else Err
  }

  lemma {:induction false} NextIndexBlockHeader(ih: IndexBlockHeader, tail: Bytes)
    requires ValidIndexBlockHeader(ih)
    ensures ReadIndexBlockHeaders(MarshalIndexBlockHeader(ih) + tail) ==
            match ReadIndexBlockHeaders(tail) {
              case Err => Err
              case Ok(rest) => Ok([ih] + rest)
            }
  {
    IndexBlockHeaderRoundTrip(ih, tail);
  }

  lemma {:induction false} TailOfFront<T>(xs: seq<T>)
    requires |xs| > 1
    ensures xs[1..][..|xs[1..]| - 1] == xs[..|xs| - 1][1..] && xs[..|xs| - 1][0] == xs[0] && xs[1..][|xs[1..]| - 1] == xs[|xs| - 1]
  {
  }

  lemma {:induction false} FirstIndexBlockHeader(ihs: seq<IndexBlockHeader>)
    requires ihs != []
    ensures MarshalIndexBlockHeaders(ihs) == MarshalIndexBlockHeader(ihs[0]) + MarshalIndexBlockHeaders(ihs[1..])
  {
    var last := ihs[|ihs| - 1];
    if |ihs| > 1 {
      var front := ihs[..|ihs| - 1];
      FirstIndexBlockHeader(front);
      TailOfFront(ihs);
      Assoc(MarshalIndexBlockHeader(ihs[0]), MarshalIndexBlockHeaders(front[1..]), MarshalIndexBlockHeader(last));
    } else {
      assert MarshalIndexBlockHeaders(ihs[..0]) == [] && MarshalIndexBlockHeaders(ihs[1..]) == [];
    }
  }

  lemma {:induction false} IndexBlockHeadersRead(ihs: seq<IndexBlockHeader>)
    requires forall i :: 0 <= i < |ihs| ==> ValidIndexBlockHeader(ihs[i])
    ensures ReadIndexBlockHeaders(MarshalIndexBlockHeaders(ihs)) == Ok(ihs)
  {
    if ihs != [] {
      FirstIndexBlockHeader(ihs);
      IndexBlockHeadersRead(ihs[1..]);
      NextIndexBlockHeader(ihs[0], MarshalIndexBlockHeaders(ihs[1..]));
      assert [ihs[0]] + ihs[1..] == ihs;
    }
  }

  lemma {:induction false} IndexBlockHeadersRoundTrip(ihs: seq<IndexBlockHeader>)
    requires forall i :: 0 <= i < |ihs| ==> ValidIndexBlockHeader(ihs[i])
    requires OrderedByStream(ihs)
    ensures UnmarshalIndexBlockHeaders(MarshalIndexBlockHeaders(ihs)) == Ok(ihs)
  {
    IndexBlockHeadersRead(ihs);
  }

  /** The headers come after those already in dst. */
  method UnmarshalIndexBlockHeadersTo(dst: seq<IndexBlockHeader>, data: Bytes) returns (ok: bool, r: seq<IndexBlockHeader>)
    ensures ok <==> UnmarshalIndexBlockHeaders(data).Ok?
    ensures r == if ok then dst + UnmarshalIndexBlockHeaders(data).value else dst
  {
    var src, ihs := data, [];
    if ReadIndexBlockHeaders(data).Ok? {
      assert [] + ReadIndexBlockHeaders(data).value == ReadIndexBlockHeaders(data).value;
    }
    while |src| > 0
      invariant ReadIndexBlockHeaders(data) ==
                match ReadIndexBlockHeaders(src) {
                  case Err => Err
                  case Ok(rest) => Ok(ihs + rest)
                }
      decreases |src|
    {
      var next := ReadIndexBlockHeader(src);
      if next.Err? {
        return false, dst;
      }
      PrependedIsAppended(ihs, next.value.0, ReadIndexBlockHeaders(next.value.1));
      ihs := ihs + [next.value.0];
      src := next.value.1;
    }
    assert ihs + [] == ihs;
    var valid := ValidateIndexBlockHeaders(ihs);
    if !valid {
      return false, dst;
    }
    return true, dst + ihs;
  }

  lemma {:induction false} PrependedIsAppended<T>(xs: seq<T>, x: T, rest: Result<seq<T>>)
    ensures rest.Ok? ==> xs + ([x] + rest.value) == xs + [x] + rest.value
  {
  }

  method ValidateIndexBlockHeaders(ihs: seq<IndexBlockHeader>) returns (valid: bool)
    ensures valid == OrderedByStream(ihs)
  {
    var i := 1;
    while i < |ihs|
      invariant 1 <= i && forall j :: 1 <= j < i && j < |ihs| ==> ihs[j - 1].streamID <= ihs[j].streamID
    {
      if ihs[i].streamID < ihs[i - 1].streamID {
        return false;
      }
      i := i + 1;
    }
    return true;
  }

  // ---------- Headers of blocks ----------

  datatype TimestampsHeader = TimestampsHeader(blockOffset: nat, blockSize: nat, minTimestamp: Int64, maxTimestamp: Int64, marshalType: Byte)

  function MarshalTimestampsHeader(th: TimestampsHeader): Bytes {
    MarshalUint64(th.blockOffset) + (MarshalUint64(th.blockSize) +
    (MarshalInt64(th.minTimestamp) + (MarshalInt64(th.maxTimestamp) + [th.marshalType])))
  }

  function ReadTimestampsHeader(src: Bytes): (r: Result<(TimestampsHeader, Bytes)>)
    ensures r.Ok? ==> |r.value.1| < |src|
  {
    var (offset, src1) :- ReadUint64(src);
    var (size, src2) :- ReadUint64(src1);
    var (minTimestamp, src3) :- ReadInt64(src2);
    var (maxTimestamp, src4) :- ReadInt64(src3);
    if |src4| < 1 then Err else Ok((TimestampsHeader(offset, size, minTimestamp, maxTimestamp, src4[0]), src4[1..]))
  }

  lemma {:induction false} TimestampsHeaderRoundTrip(th: TimestampsHeader, tail: Bytes)
    requires th.blockOffset < UINT64_SIZE && th.blockSize < UINT64_SIZE
    ensures ReadTimestampsHeader(MarshalTimestampsHeader(th) + tail) == Ok((th, tail))
  {
    var e: Bytes := [th.marshalType];
    var d, c := MarshalInt64(th.maxTimestamp), MarshalInt64(th.minTimestamp);
    var b, a := MarshalUint64(th.blockSize), MarshalUint64(th.blockOffset);
    Assoc(d, e, tail);
    Assoc(c, d + e, tail);
    Assoc(b, c + (d + e), tail);
    Assoc(a, b + (c + (d + e)), tail);
    Uint64RoundTrip(th.blockOffset, b + (c + (d + (e + tail))));
    Uint64RoundTrip(th.blockSize, c + (d + (e + tail)));
    Int64RoundTrip(th.minTimestamp, d + (e + tail));
    Int64RoundTrip(th.maxTimestamp, e + tail);
    assert (e + tail)[1..] == tail;
  }

  datatype BlockHeader = BlockHeader(streamID: StreamID, uncompressedSizeBytes: nat, rowsCount: nat, timestampsHeader: TimestampsHeader,
    columnsHeaderIndexOffset: nat, columnsHeaderIndexSize: nat, columnsHeaderOffset: nat, columnsHeaderSize: nat)

  ghost predicate ValidBlockHeader(bh: BlockHeader) {
    ValidStreamID(bh.streamID) && bh.rowsCount <= MAX_ROWS_PER_BLOCK && bh.columnsHeaderSize <= MAX_BLOCK_SIZE &&
    bh.timestampsHeader.blockOffset < UINT64_SIZE && bh.timestampsHeader.blockSize < UINT64_SIZE
  }

  function MarshalBlockHeader(bh: BlockHeader): Bytes {
    BE.Marshal(bh.streamID, STREAM_ID_SIZE) + (MarshalVarUint64(bh.uncompressedSizeBytes) + (MarshalVarUint64(bh.rowsCount) +
    (MarshalTimestampsHeader(bh.timestampsHeader) + MarshalPlaces(bh))))
  }

  function MarshalPlaces(bh: BlockHeader): Bytes {
    MarshalVarUint64(bh.columnsHeaderIndexOffset) + (MarshalVarUint64(bh.columnsHeaderIndexSize) +
    (MarshalVarUint64(bh.columnsHeaderOffset) + MarshalVarUint64(bh.columnsHeaderSize)))
  }

  function ReadBlockHeader(src: Bytes): (r: Result<(BlockHeader, Bytes)>)
    ensures r.Ok? ==> |r.value.1| < |src|
  {
    var (sid, src1) :- ReadFixed(src, STREAM_ID_SIZE);
    var (size, src2) :- ReadVar(src1);
    var (rowsCount, src3) :- ReadVar(src2);
    if rowsCount > MAX_ROWS_PER_BLOCK then Err
    else
      var (th, src4) :- ReadTimestampsHeader(src3);
      var (places, tail) :- ReadPlaces(src4);
      assert |src3| < |src| && |src4| <= |src3| && |tail| <= |src4|;
      Ok((BlockHeader(sid, size, rowsCount, th, places.0, places.1, places.2, places.3), tail))
  }

  function ReadPlaces(src: Bytes): (r: Result<((nat, nat, nat, nat), Bytes)>)
    ensures r.Ok? ==> |r.value.1| < |src|
  {
    var (indexOffset, src1) :- ReadVar(src);
    var (indexSize, src2) :- ReadVar(src1);
    var (offset, src3) :- ReadVar(src2);
    var (size, tail) :- ReadVar(src3);
    if size > MAX_BLOCK_SIZE then Err else Ok(((indexOffset, indexSize, offset, size), tail))
  }

  lemma {:induction false} PlacesRoundTrip(bh: BlockHeader, tail: Bytes)
    requires bh.columnsHeaderSize <= MAX_BLOCK_SIZE
    ensures ReadPlaces(MarshalPlaces(bh) + tail) ==
            Ok(((bh.columnsHeaderIndexOffset, bh.columnsHeaderIndexSize, bh.columnsHeaderOffset, bh.columnsHeaderSize), tail))
  {
    var d, c := MarshalVarUint64(bh.columnsHeaderSize), MarshalVarUint64(bh.columnsHeaderOffset);
    var b, a := MarshalVarUint64(bh.columnsHeaderIndexSize), MarshalVarUint64(bh.columnsHeaderIndexOffset);
    Assoc(c, d, tail);
    Assoc(b, c + d, tail);
    Assoc(a, b + (c + d), tail);
    VarRoundTrip(bh.columnsHeaderIndexOffset, b + (c + (d + tail)));
    VarRoundTrip(bh.columnsHeaderIndexSize, c + (d + tail));
    VarRoundTrip(bh.columnsHeaderOffset, d + tail);
    VarRoundTrip(bh.columnsHeaderSize, tail);
  }

  lemma {:induction false} BlockHeaderRoundTrip(bh: BlockHeader, tail: Bytes)
    requires ValidBlockHeader(bh)
    ensures ReadBlockHeader(MarshalBlockHeader(bh) + tail) == Ok((bh, tail))
    ensures |MarshalBlockHeader(bh)| > 0
  {
    var e, d := MarshalPlaces(bh), MarshalTimestampsHeader(bh.timestampsHeader);
    var c, b := MarshalVarUint64(bh.rowsCount), MarshalVarUint64(bh.uncompressedSizeBytes);
    var a := BE.Marshal(bh.streamID, STREAM_ID_SIZE);
    Assoc(d, e, tail);
    Assoc(c, d + e, tail);
    Assoc(b, c + (d + e), tail);
    Assoc(a, b + (c + (d + e)), tail);
    FixedRoundTrip(bh.streamID, STREAM_ID_SIZE, b + (c + (d + (e + tail))));
    VarRoundTrip(bh.uncompressedSizeBytes, c + (d + (e + tail)));
    VarRoundTrip(bh.rowsCount, d + (e + tail));
    TimestampsHeaderRoundTrip(bh.timestampsHeader, e + tail);
    PlacesRoundTrip(bh, tail);
  }

  function MarshalBlockHeaders(bhs: seq<BlockHeader>): Bytes {
    if bhs == [] then [] else MarshalBlockHeaders(bhs[..|bhs| - 1]) + MarshalBlockHeader(bhs[|bhs| - 1])
  }

  function ReadBlockHeaders(src: Bytes): Result<seq<BlockHeader>>
    decreases |src|
  {
    if src == [] then Ok([])
    else
      var (bh, tail) :- ReadBlockHeader(src);
      var rest :- ReadBlockHeaders(tail);
      Ok([bh] + rest)
  }

  /** Blocks are ordered by stream, and by minimum timestamp inside a stream. */
  predicate InOrder(a: BlockHeader, b: BlockHeader) {
    a.streamID < b.streamID || (a.streamID == b.streamID && a.timestampsHeader.minTimestamp <= b.timestampsHeader.minTimestamp)
  }

  predicate OrderedBlocks(bhs: seq<BlockHeader>) {
    forall i :: 1 <= i < |bhs| ==> InOrder(bhs[i - 1], bhs[i])
  }

  function UnmarshalBlockHeaders(src: Bytes): Result<seq<BlockHeader>> {
    var bhs :- ReadBlockHeaders(src);
    if OrderedBlocks(bhs) then Ok(bhs) else Err
  }

  lemma {:induction false} NextBlockHeader(bh: BlockHeader, tail: Bytes)
    requires ValidBlockHeader(bh)
    ensures ReadBlockHeaders(MarshalBlockHeader(bh) + tail) ==
            match ReadBlockHeaders(tail) {
              case Err => Err
              case Ok(rest) => Ok([bh] + rest)
            }
  {
    BlockHeaderRoundTrip(bh, tail);
  }

  lemma {:induction false} FirstBlockHeader(bhs: seq<BlockHeader>)
    requires bhs != []
    ensures MarshalBlockHeaders(bhs) == MarshalBlockHeader(bhs[0]) + MarshalBlockHeaders(bhs[1..])
  {
    var last := bhs[|bhs| - 1];
    if |bhs| > 1 {
      var front := bhs[..|bhs| - 1];
      FirstBlockHeader(front);
      TailOfFront(bhs);
      Assoc(MarshalBlockHeader(bhs[0]), MarshalBlockHeaders(front[1..]), MarshalBlockHeader(last));
    } else {
      assert MarshalBlockHeaders(bhs[..0]) == [] && MarshalBlockHeaders(bhs[1..]) == [];
    }
  }

  lemma {:induction false} BlockHeadersRead(bhs: seq<BlockHeader>)
    requires forall i :: 0 <= i < |bhs| ==> ValidBlockHeader(bhs[i])
    ensures ReadBlockHeaders(MarshalBlockHeaders(bhs)) == Ok(bhs)
  {
    if bhs != [] {
      FirstBlockHeader(bhs);
      BlockHeadersRead(bhs[1..]);
      NextBlockHeader(bhs[0], MarshalBlockHeaders(bhs[1..]));
      assert [bhs[0]] + bhs[1..] == bhs;
    }
  }

  lemma {:induction false} BlockHeadersRoundTrip(bhs: seq<BlockHeader>)
    requires forall i :: 0 <= i < |bhs| ==> ValidBlockHeader(bhs[i])
    requires OrderedBlocks(bhs)
    ensures UnmarshalBlockHeaders(MarshalBlockHeaders(bhs)) == Ok(bhs)
  {
    BlockHeadersRead(bhs);
  }

  // ---------- Headers of columns ----------

  datatype ValueType = String | Dict | Uint8 | Uint16 | Uint32 | Uint64 | Float64 | IPv4 | TimestampISO8601 | Int64Type

  function TypeCode(t: ValueType): Byte {
    match t
    case String => 1
    case Dict => 2
    case Uint8 => 3
    case Uint16 => 4
    case Uint32 => 5
    case Uint64 => 6
    case Float64 => 7
    case IPv4 => 8
    case TimestampISO8601 => 9
    case Int64Type => 10
  }

  function TypeOf(code: Byte): Result<ValueType> {
    match code
    case 1 => Ok(String)
    case 2 => Ok(Dict)
    case 3 => Ok(Uint8)
    case 4 => Ok(Uint16)
    case 5 => Ok(Uint32)
    case 6 => Ok(Uint64)
    case 7 => Ok(Float64)
    case 8 => Ok(IPv4)
    case 9 => Ok(TimestampISO8601)
    case 10 => Ok(Int64Type)
    case _ => Err
  }

  /** The number of bytes of the smallest and the biggest value. */
  function MinMaxWidth(t: ValueType): nat {
    match t
    case String => 0
    case Dict => 0
    case Uint8 => 1
    case Uint16 => 2
    case Uint32 => 4
    case IPv4 => 4
    case _ => 8
  }

  datatype ColumnHeader = ColumnHeader(name: Bytes, valueType: ValueType, minValue: nat, maxValue: nat, valuesDict: seq<Bytes>,
    valuesOffset: nat, valuesSize: nat, bloomFilterOffset: nat, bloomFilterSize: nat)

  ghost predicate ValidColumnHeader(ch: ColumnHeader) {
    ch.minValue < BE.Power256(MinMaxWidth(ch.valueType)) && ch.maxValue < BE.Power256(MinMaxWidth(ch.valueType)) &&
    (if ch.valueType == Dict then |ch.valuesDict| < 256 && ch.bloomFilterSize == 0 else ch.valuesDict == []) &&
    ch.valuesSize <= MAX_BLOCK_SIZE && ch.bloomFilterSize <= MAX_BLOCK_SIZE
  }

  /** What can be read from the columns header; names are elsewhere, and a dict column has no bloom filter. */
  function Readable(ch: ColumnHeader): ColumnHeader {
    if ch.valueType == Dict then ch.(name := [], bloomFilterOffset := 0, bloomFilterSize := 0) else ch.(name := [])
  }

  function MarshalBytesList(a: seq<Bytes>): Bytes {
    if a == [] then [] else MarshalBytes(a[0]) + MarshalBytesList(a[1..])
  }

  function ReadBytesList(src: Bytes, n: nat): (r: Result<(seq<Bytes>, Bytes)>)
    ensures r.Ok? ==> |r.value.0| == n
    decreases n
  {
    if n == 0 then Ok(([], src))
    else
      var (b, src1) :- ReadBytes(src);
      var (rest, tail) :- ReadBytesList(src1, n - 1);
      Ok(([b] + rest, tail))
  }

  lemma {:induction false} BytesListRoundTrip(a: seq<Bytes>, tail: Bytes)
    ensures ReadBytesList(MarshalBytesList(a) + tail, |a|) == Ok((a, tail))
  {
    if a == [] {
      assert MarshalBytesList(a) + tail == tail;
    } else {
      Assoc(MarshalBytes(a[0]), MarshalBytesList(a[1..]), tail);
      BytesRoundTrip(a[0], MarshalBytesList(a[1..]) + tail);
      BytesListRoundTrip(a[1..], tail);
      assert [a[0]] + a[1..] == a;
    }
  }

  function MarshalBloomFilters(ch: ColumnHeader): Bytes {
    if ch.valueType == Dict then [] else MarshalVarUint64(ch.bloomFilterOffset) + MarshalVarUint64(ch.bloomFilterSize)
  }

  function MarshalDict(ch: ColumnHeader): Bytes
  {
    if ch.valueType == Dict then [|ch.valuesDict| % 256] + MarshalBytesList(ch.valuesDict) else []
  }

  function MarshalMinMax(ch: ColumnHeader): Bytes {
    BE.Marshal(ch.minValue, MinMaxWidth(ch.valueType)) + BE.Marshal(ch.maxValue, MinMaxWidth(ch.valueType))
  }

  function MarshalValues(ch: ColumnHeader): Bytes {
    MarshalVarUint64(ch.valuesOffset) + MarshalVarUint64(ch.valuesSize)
  }

  function MarshalColumnHeader(ch: ColumnHeader): Bytes
  {
    [TypeCode(ch.valueType)] + (MarshalMinMax(ch) + (MarshalDict(ch) + (MarshalValues(ch) + MarshalBloomFilters(ch))))
  }

  function ReadMinMax(src: Bytes, t: ValueType): Result<((nat, nat), Bytes)> {
    var (minValue, src1) :- ReadFixed(src, MinMaxWidth(t));
    var (maxValue, tail) :- ReadFixed(src1, MinMaxWidth(t));
    Ok(((minValue, maxValue), tail))
  }

  function ReadDict(src: Bytes, t: ValueType): Result<(seq<Bytes>, Bytes)> {
    if t != Dict then Ok(([], src)) else if |src| < 1 then Err else ReadBytesList(src[1..], src[0])
  }

  function ReadPlace(src: Bytes): Result<((nat, nat), Bytes)> {
    var (offset, src1) :- ReadVar(src);
    var (size, tail) :- ReadVar(src1);
    if size > MAX_BLOCK_SIZE then Err else Ok(((offset, size), tail))
  }

  function ReadColumnHeader(src: Bytes): Result<(ColumnHeader, Bytes)> {
    if |src| < 1 then Err
    else
      var t :- TypeOf(src[0]);
      var (minMax, src1) :- ReadMinMax(src[1..], t);
      var (dict, src2) :- ReadDict(src1, t);
      var (values, src3) :- ReadPlace(src2);
      var (bloom, tail) :- if t == Dict then Ok(((0, 0), src3)) else ReadPlace(src3);
      Ok((ColumnHeader([], t, minMax.0, minMax.1, dict, values.0, values.1, bloom.0, bloom.1), tail))
  }

  lemma {:induction false} MinMaxRoundTrip(ch: ColumnHeader, tail: Bytes)
    requires ValidColumnHeader(ch)
    ensures ReadMinMax(MarshalMinMax(ch) + tail, ch.valueType) == Ok(((ch.minValue, ch.maxValue), tail))
  {
    var w := MinMaxWidth(ch.valueType);
    Assoc(BE.Marshal(ch.minValue, w), BE.Marshal(ch.maxValue, w), tail);
    FixedRoundTrip(ch.minValue, w, BE.Marshal(ch.maxValue, w) + tail);
    FixedRoundTrip(ch.maxValue, w, tail);
  }

  lemma {:induction false} ByteAndRest(b: Byte, data: Bytes, tail: Bytes)
    ensures var all := [b] + data + tail;
            all[0] == b && all[1..] == data + tail
  {
  }

  lemma {:induction false} NothingAndRest(tail: Bytes)
    ensures [] + tail == tail
  {
  }

  lemma {:induction false} DictRoundTrip(ch: ColumnHeader, tail: Bytes)
    requires ValidColumnHeader(ch)
    ensures ReadDict(MarshalDict(ch) + tail, ch.valueType) == Ok((ch.valuesDict, tail))
  {
    if ch.valueType == Dict {
      BytesListRoundTrip(ch.valuesDict, tail);
      ByteAndRest(|ch.valuesDict|, MarshalBytesList(ch.valuesDict), tail);
      assert |ch.valuesDict| % 256 == |ch.valuesDict|;
    } else {
      NothingAndRest(tail);
    }
  }

  lemma {:induction false} PlaceRoundTrip(offset: nat, size: nat, tail: Bytes)
    requires size <= MAX_BLOCK_SIZE
    ensures ReadPlace(MarshalVarUint64(offset) + MarshalVarUint64(size) + tail) == Ok(((offset, size), tail))
  {
    Assoc(MarshalVarUint64(offset), MarshalVarUint64(size), tail);
    VarRoundTrip(offset, MarshalVarUint64(size) + tail);
    VarRoundTrip(size, tail);
  }

  lemma {:induction false} ColumnHeaderRoundTrip(ch: ColumnHeader, tail: Bytes)
    requires ValidColumnHeader(ch)
    ensures ReadColumnHeader(MarshalColumnHeader(ch) + tail) == Ok((Readable(ch), tail))
  {
    var a: Bytes := [TypeCode(ch.valueType)];
    var b, c, d, e := MarshalMinMax(ch), MarshalDict(ch), MarshalValues(ch), MarshalBloomFilters(ch);
    Assoc(d, e, tail);
    Assoc(c, d + e, tail);
    Assoc(b, c + (d + e), tail);
    assert (MarshalColumnHeader(ch) + tail)[1..] == b + (c + (d + e)) + tail;
    assert TypeOf(TypeCode(ch.valueType)) == Ok(ch.valueType);
    MinMaxRoundTrip(ch, c + (d + (e + tail)));
    DictRoundTrip(ch, d + (e + tail));
    PlaceRoundTrip(ch.valuesOffset, ch.valuesSize, e + tail);
    if ch.valueType == Dict {
      assert e + tail == tail;
    } else {
      PlaceRoundTrip(ch.bloomFilterOffset, ch.bloomFilterSize, tail);
    }
  }

  // ---------- The header of the columns of a block ----------

  datatype Field = Field(name: Bytes, value: Bytes)

  function MarshalColumnHeaders(chs: seq<ColumnHeader>): Bytes
  {
    if chs == [] then [] else MarshalColumnHeader(chs[0]) + MarshalColumnHeaders(chs[1..])
  }

  function Values(ccs: seq<Field>): (values: seq<Bytes>)
    ensures |values| == |ccs| && forall i :: 0 <= i < |ccs| ==> values[i] == ccs[i].value
  {
    if ccs == [] then [] else [ccs[0].value] + Values(ccs[1..])
  }

  function MarshalColumnsHeader(chs: seq<ColumnHeader>, ccs: seq<Field>): Bytes
  {
    MarshalVarUint64(|chs|) + (MarshalColumnHeaders(chs) + (MarshalVarUint64(|ccs|) + MarshalBytesList(Values(ccs))))
  }

  function ReadColumnHeaders(src: Bytes, n: nat): (r: Result<(seq<ColumnHeader>, Bytes)>)
    ensures r.Ok? ==> |r.value.0| == n
    decreases n
  {
    if n == 0 then Ok(([], src))
    else
      var (ch, src1) :- ReadColumnHeader(src);
      var (rest, tail) :- ReadColumnHeaders(src1, n - 1);
      Ok(([ch] + rest, tail))
  }

  /** The headers without names and the values of the const columns. */
  function UnmarshalColumnsHeader(src: Bytes): Result<(seq<ColumnHeader>, seq<Bytes>)> {
    var (n, src1) :- ReadVar(src);
    if n > 1_000_000 then Err
    else
      var (chs, src2) :- ReadColumnHeaders(src1, n);
      if n > MAX_COLUMNS_PER_BLOCK then Err
      else
        var (m, src3) :- ReadVar(src2);
        if m > 1_000_000 then Err
        else
          var (values, tail) :- ReadBytesList(src3, m);
          if m + n > MAX_COLUMNS_PER_BLOCK || |tail| > 0 then Err else Ok((chs, values))
  }

  function AllReadable(chs: seq<ColumnHeader>): (r: seq<ColumnHeader>)
    ensures |r| == |chs| && forall i :: 0 <= i < |chs| ==> r[i] == Readable(chs[i])
  {
    if chs == [] then [] else [Readable(chs[0])] + AllReadable(chs[1..])
  }

  lemma {:induction false} ColumnHeadersRoundTrip(chs: seq<ColumnHeader>, tail: Bytes)
    requires forall i :: 0 <= i < |chs| ==> ValidColumnHeader(chs[i])
    ensures ReadColumnHeaders(MarshalColumnHeaders(chs) + tail, |chs|) == Ok((AllReadable(chs), tail))
  {
    if chs == [] {
      assert MarshalColumnHeaders(chs) + tail == tail;
    } else {
      Assoc(MarshalColumnHeader(chs[0]), MarshalColumnHeaders(chs[1..]), tail);
      ColumnHeaderRoundTrip(chs[0], MarshalColumnHeaders(chs[1..]) + tail);
      ColumnHeadersRoundTrip(chs[1..], tail);
      assert [Readable(chs[0])] + AllReadable(chs[1..]) == AllReadable(chs);
    }
  }

  lemma {:induction false} ColumnsHeaderRoundTrip(chs: seq<ColumnHeader>, ccs: seq<Field>)
    requires forall i :: 0 <= i < |chs| ==> ValidColumnHeader(chs[i])
    requires |chs| + |ccs| <= 2000
    ensures UnmarshalColumnsHeader(MarshalColumnsHeader(chs, ccs)) == Ok((AllReadable(chs), Values(ccs)))
  {
    var d := MarshalBytesList(Values(ccs));
    var c, b := MarshalVarUint64(|ccs|), MarshalColumnHeaders(chs);
    VarRoundTrip(|chs|, b + (c + d));
    ColumnHeadersRoundTrip(chs, c + d);
    VarRoundTrip(|ccs|, d);
    BytesListRoundTrip(Values(ccs), []);
    assert d + [] == d;
  }

  // ---------- Where the names of the columns of a block are ----------

  datatype ColumnHeaderRef = ColumnHeaderRef(columnNameID: nat, offset: nat)

  function MarshalRefList(refs: seq<ColumnHeaderRef>): Bytes {
    if refs == [] then []
    else MarshalVarUint64(refs[0].columnNameID) + (MarshalVarUint64(refs[0].offset) + MarshalRefList(refs[1..]))
  }

  function MarshalRefs(refs: seq<ColumnHeaderRef>): Bytes {
    MarshalVarUint64(|refs|) + MarshalRefList(refs)
  }

  function MarshalColumnsHeaderIndex(refs: seq<ColumnHeaderRef>, constRefs: seq<ColumnHeaderRef>): Bytes {
    MarshalRefs(refs) + MarshalRefs(constRefs)
  }

  function ReadRefList(src: Bytes, n: nat): Result<(seq<ColumnHeaderRef>, Bytes)>
    decreases n
  {
    if n == 0 then Ok(([], src))
    else
      var (id, src1) :- ReadVar(src);
      var (offset, src2) :- ReadVar(src1);
      var (rest, tail) :- ReadRefList(src2, n - 1);
      Ok(([ColumnHeaderRef(id, offset)] + rest, tail))
  }

  function ReadRefs(src: Bytes): Result<(seq<ColumnHeaderRef>, Bytes)> {
    var (n, src1) :- ReadVar(src);
    ReadRefList(src1, n)
  }

  function UnmarshalColumnsHeaderIndex(src: Bytes): Result<(seq<ColumnHeaderRef>, seq<ColumnHeaderRef>)> {
    var (refs, src1) :- ReadRefs(src);
    var (constRefs, tail) :- ReadRefs(src1);
    if |tail| > 0 then Err else Ok((refs, constRefs))
  }

  lemma {:induction false} RefListRoundTrip(refs: seq<ColumnHeaderRef>, tail: Bytes)
    ensures ReadRefList(MarshalRefList(refs) + tail, |refs|) == Ok((refs, tail))
  {
    if refs == [] {
      assert MarshalRefList(refs) + tail == tail;
    } else {
      var a, b, c := MarshalVarUint64(refs[0].columnNameID), MarshalVarUint64(refs[0].offset), MarshalRefList(refs[1..]);
      Assoc(b, c, tail);
      Assoc(a, b + c, tail);
      VarRoundTrip(refs[0].columnNameID, b + (c + tail));
      VarRoundTrip(refs[0].offset, c + tail);
      RefListRoundTrip(refs[1..], tail);
      assert [refs[0]] + refs[1..] == refs;
    }
  }

  lemma {:induction false} RefsRoundTrip(refs: seq<ColumnHeaderRef>, tail: Bytes)
    ensures ReadRefs(MarshalRefs(refs) + tail) == Ok((refs, tail))
  {
    Assoc(MarshalVarUint64(|refs|), MarshalRefList(refs), tail);
    VarRoundTrip(|refs|, MarshalRefList(refs) + tail);
    RefListRoundTrip(refs, tail);
  }

  lemma {:induction false} ColumnsHeaderIndexRoundTrip(refs: seq<ColumnHeaderRef>, constRefs: seq<ColumnHeaderRef>)
    ensures UnmarshalColumnsHeaderIndex(MarshalColumnsHeaderIndex(refs, constRefs)) == Ok((refs, constRefs))
  {
    RefsRoundTrip(refs, MarshalRefs(constRefs));
    RefsRoundTrip(constRefs, []);
    assert MarshalRefs(constRefs) + [] == MarshalRefs(constRefs);
  }

  /** The names with the given ids; an unknown id is an error. */
  function NamesOfRefs(refs: seq<ColumnHeaderRef>, columnNames: seq<Bytes>): (r: Result<seq<Bytes>>)
    ensures r.Ok? <==> forall i :: 0 <= i < |refs| ==> refs[i].columnNameID < |columnNames|
    ensures r.Ok? ==> |r.value| == |refs| && forall i :: 0 <= i < |refs| ==> r.value[i] == columnNames[refs[i].columnNameID]
  {
    if refs == [] then Ok([])
    else if refs[0].columnNameID >= |columnNames| then Err
    else
      var rest :- NamesOfRefs(refs[1..], columnNames);
      Ok([columnNames[refs[0].columnNameID]] + rest)
  }

  function SetColumnNames(chs: seq<ColumnHeader>, values: seq<Bytes>, refs: seq<ColumnHeaderRef>, constRefs: seq<ColumnHeaderRef>, columnNames: seq<Bytes>)
      : Result<(seq<ColumnHeader>, seq<Field>)> {
    if |refs| != |chs| then Err
    else
      var names :- NamesOfRefs(refs, columnNames);
      if |constRefs| != |values| then Err
      else
        var constNames :- NamesOfRefs(constRefs, columnNames);
        Ok((seq(|chs|, i requires 0 <= i < |chs| => chs[i].(name := names[i])),
            seq(|values|, i requires 0 <= i < |values| => Field(constNames[i], values[i]))))
  }
}
