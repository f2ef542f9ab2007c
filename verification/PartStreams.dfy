/** Writing a whole part as a stream of blocks. */
module PartStreams {
  import BE = BigEndian
  import opened StringsBlock
  import opened PartHeaders
  import opened ColumnNames
  import opened PartFiles

  const MAX_UNCOMPRESSED_INDEX_BLOCK_SIZE: nat := 128 * 1024
  const PART_FORMAT_LATEST_VERSION: nat := 3

  /** Compression never blows data of the size of an index block up to more than a reader accepts. */
  ghost predicate CompressesIndexBlocks(z: Compression) {
    forall b: Bytes, level :: |b| <= 2 * MAX_UNCOMPRESSED_INDEX_BLOCK_SIZE ==> |z.compress(b, level)| <= MAX_BLOCK_SIZE
  }

  /** There is such a compression: the one that leaves the bytes as they are. */
  lemma {:induction false} CompressionExists() returns (z: Compression)
    ensures Invertible(z) && CompressesIndexBlocks(z)
  {
    z := Compression((b, level) => b, b => Ok(b));
  }

  // ---------- Totals ----------

  /** The size of the first n blocks. */
  function SizeTo(bhs: seq<BlockHeader>, k: nat): nat
    requires k <= |bhs|
  {
    if k == 0 then 0 else SizeTo(bhs, k - 1) + bhs[k - 1].uncompressedSizeBytes
  }

  function RowsTo(bhs: seq<BlockHeader>, k: nat): nat
    requires k <= |bhs|
  {
    if k == 0 then 0 else RowsTo(bhs, k - 1) + bhs[k - 1].rowsCount
  }

  lemma {:induction false} SameTotalsTo(a: seq<BlockHeader>, b: seq<BlockHeader>, k: nat)
    requires k <= |a| && a <= b
    ensures SizeTo(a, k) == SizeTo(b, k) && RowsTo(a, k) == RowsTo(b, k)
  {
    if k > 0 {
      SameTotalsTo(a, b, k - 1);
    }
  }

  lemma {:induction false} TotalsAscend(bhs: seq<BlockHeader>, k: nat, n: nat)
    requires k <= n <= |bhs|
    ensures SizeTo(bhs, k) <= SizeTo(bhs, n) && RowsTo(bhs, k) <= RowsTo(bhs, n)
  {
    if k < n {
      TotalsAscend(bhs, k, n - 1);
    }
  }

  function MinTimestamp(bhs: seq<BlockHeader>): Int64 {
    if bhs == [] then 0
    else
      var rest, last := MinTimestamp(bhs[..|bhs| - 1]), bhs[|bhs| - 1].timestampsHeader.minTimestamp;
      if |bhs| == 1 || last < rest then last else rest
  }

  function MaxTimestamp(bhs: seq<BlockHeader>): Int64 {
    if bhs == [] then 0
    else
      var rest, last := MaxTimestamp(bhs[..|bhs| - 1]), bhs[|bhs| - 1].timestampsHeader.maxTimestamp;
      if |bhs| == 1 || last > rest then last else rest
  }

  lemma {:induction false} TimeRangeCovers(bhs: seq<BlockHeader>)
    ensures forall i :: 0 <= i < |bhs| ==> MinTimestamp(bhs) <= bhs[i].timestampsHeader.minTimestamp
    ensures forall i :: 0 <= i < |bhs| ==> bhs[i].timestampsHeader.maxTimestamp <= MaxTimestamp(bhs)
  {
    if bhs != [] {
      TimeRangeCovers(bhs[..|bhs| - 1]);
    }
  }

  // ---------- Index blocks ----------

  function Flatten(groups: seq<seq<BlockHeader>>): seq<BlockHeader> {
    if groups == [] then [] else Flatten(groups[..|groups| - 1]) + groups[|groups| - 1]
  }

  function IndexBlock(z: Compression, group: seq<BlockHeader>): Bytes {
    z.compress(MarshalBlockHeaders(group), 1)
  }

  function IndexData(z: Compression, groups: seq<seq<BlockHeader>>): Bytes {
    if groups == [] then [] else IndexData(z, groups[..|groups| - 1]) + IndexBlock(z, groups[|groups| - 1])
  }

  /** The header of an index block: its first stream, the time range of its blocks, and where it is. */
  function IndexHeader(z: Compression, group: seq<BlockHeader>, offset: nat): IndexBlockHeader {
    IndexBlockHeader(if group == [] then 0 else group[0].streamID, MinTimestamp(group), MaxTimestamp(group), offset, |IndexBlock(z, group)|)
  }

  function IndexHeaders(z: Compression, groups: seq<seq<BlockHeader>>): (ihs: seq<IndexBlockHeader>)
    ensures |ihs| == |groups|
  {
    if groups == [] then []
    else
      var front := groups[..|groups| - 1];
      IndexHeaders(z, front) + [IndexHeader(z, groups[|groups| - 1], |IndexData(z, front)|)]
  }

  // ---------- Sizes of headers ----------

  function Power128(k: nat): nat {
    if k == 0 then 1 else 128 * Power128(k - 1)
  }

  lemma {:induction false} VarLen(n: nat, k: nat)
    requires 0 < k && n < Power128(k)
    ensures |MarshalVarUint64(n)| <= k
  {
    if n >= 128 {
      assert k > 1;
      assert n / 128 < Power128(k - 1);
      VarLen(n / 128, k - 1);
    }
  }

  lemma {:induction false} VarUint64Len(n: nat)
    requires n < UINT64_SIZE
    ensures |MarshalVarUint64(n)| <= 10
  {
    assert Power128(5) == 0x8_0000_0000;
    assert Power128(10) == 128 * (128 * (128 * (128 * (128 * Power128(5)))));
    VarLen(n, 10);
  }

  predicate SmallHeader(bh: BlockHeader) {
    bh.uncompressedSizeBytes < UINT64_SIZE && bh.rowsCount < UINT64_SIZE && bh.columnsHeaderIndexOffset < UINT64_SIZE &&
    bh.columnsHeaderIndexSize < UINT64_SIZE && bh.columnsHeaderOffset < UINT64_SIZE && bh.columnsHeaderSize < UINT64_SIZE
  }

  lemma {:induction false} BlockHeaderLen(bh: BlockHeader)
    requires SmallHeader(bh)
    ensures 0 < |MarshalBlockHeader(bh)| <= 117
  {
    VarUint64Len(bh.uncompressedSizeBytes);
    VarUint64Len(bh.rowsCount);
    VarUint64Len(bh.columnsHeaderIndexOffset);
    VarUint64Len(bh.columnsHeaderIndexSize);
    VarUint64Len(bh.columnsHeaderOffset);
    VarUint64Len(bh.columnsHeaderSize);
  }

  // ---------- Parts ----------

  datatype PartHeader = PartHeader(formatVersion: nat, compressedSizeBytes: nat, uncompressedSizeBytes: nat, rowsCount: nat, blocksCount: nat,
    minTimestamp: Int64, maxTimestamp: Int64, bloomValuesShardsCount: nat)

  /** The files of a part. */
  datatype Part = Part(ph: PartHeader, columnNames: Bytes, columnIdxs: Bytes, metaindex: Bytes, index: Bytes,
    columnsHeaderIndex: Bytes, columnsHeader: Bytes, timestamps: Bytes, message: BloomValues, shards: seq<BloomValues>)

  function ShardsSize(shards: seq<BloomValues>): nat {
    if shards == [] then 0
    else ShardsSize(shards[..|shards| - 1]) + |shards[|shards| - 1].bloom| + |shards[|shards| - 1].values|
  }

  function FilesSize(part: Part): nat {
    |part.columnNames| + |part.columnIdxs| + |part.metaindex| + |part.index| + |part.columnsHeaderIndex| + |part.columnsHeader| +
    |part.timestamps| + |part.message.bloom| + |part.message.values| + ShardsSize(part.shards)
  }

  // ---------- What has been written ----------

  /** What a header says of its block. */
  predicate IsHeaderOf(bh: BlockHeader, bd: BlockData) {
    bh.streamID == bd.streamID && bh.uncompressedSizeBytes == bd.uncompressedSizeBytes && bh.rowsCount == bd.rowsCount &&
    bh.timestampsHeader.minTimestamp == bd.timestampsData.minTimestamp && bh.timestampsHeader.maxTimestamp == bd.timestampsData.maxTimestamp
  }

  /** A block starts where the files ended before it. */
  predicate StartsAt(bh: BlockHeader, sw: StreamWriters) {
    bh.timestampsHeader.blockOffset == |sw.timestamps| && bh.columnsHeaderOffset == |sw.columnsHeader| &&
    bh.columnsHeaderIndexOffset == |sw.columnsHeaderIndex|
  }

  ghost predicate IsWritten(sw: StreamWriters, bd: BlockData, sw': StreamWriters, bh: BlockHeader) {
    Grows(sw, sw') && Recovers(sw, bd, sw', bh) && IsHeaderOf(bh, bd) && StartsAt(bh, sw) &&
    ValidBlockHeader(bh) && SmallHeader(bh) && bh.rowsCount > 0 && bd.timestampsData.minTimestamp <= bd.timestampsData.maxTimestamp
  }

  /** The writer does not panic about the sizes of the headers, and the files are not too big for 64 bits. */
  predicate FitsInPart(bh: BlockHeader) {
    bh.columnsHeaderIndexSize <= MAX_BLOCK_SIZE && bh.columnsHeaderSize <= MAX_BLOCK_SIZE && bh.timestampsHeader.blockOffset < UINT64_SIZE &&
    SmallHeader(bh)
  }

  lemma {:induction false} BlockIsWritten(sw: StreamWriters, bd: BlockData)
    requires ValidWriters(sw) && ValidBlock(bd)
    ensures var (sw', bh) := WriteBlock(sw, bd);
            IsHeaderOf(bh, bd) && ValidWriters(sw') && (FitsInPart(bh) ==> IsWritten(sw, bd, sw', bh))
  {
    BlockGrows(sw, bd);
    BlockStartsAtEnds(sw, bd);
    if FitsInPart(WriteBlock(sw, bd).1) {
      WrittenBlockIsRecovered(sw, bd);
    }
  }

  lemma {:induction false} BlockStartsAtEnds(sw: StreamWriters, bd: BlockData)
    requires ValidWriters(sw)
    ensures StartsAt(WriteBlock(sw, bd).1, sw)
  {
    ColumnsGrow(WriteTimestamps(sw, bd.timestampsData).0, bd.columnsData);
  }

  /** The blocks of a part, their headers, and what the writer had and knew between them. */
  datatype Blocks = Blocks(bds: seq<BlockData>, bhs: seq<BlockHeader>, trace: seq<StreamWriters>, states: seq<IndexState>)

  ghost predicate HasLengths(b: Blocks) {
    |b.trace| == |b.bds| + 1 == |b.states| && |b.bhs| == |b.bds|
  }

  ghost predicate AreBlocks(z: Compression, b: Blocks) {
    HasLengths(b) && b.trace[0] == NoFiles(b.trace[0].maxShards) && b.states[0] == NO_INDEX &&
    forall i :: 0 <= i < |b.bds| ==> IsStep(z, b, i)
  }

  ghost predicate IsStep(z: Compression, b: Blocks, i: nat)
    requires HasLengths(b) && i < |b.bds|
  {
    IsWritten(b.trace[i], b.bds[i], b.trace[i + 1], b.bhs[i]) &&
    CanFollow(KeyOf(b.states[i]), b.bhs[i]) && b.states[i + 1] == AddHeader(z, b.states[i], b.bhs[i])
  }

  function AddBlock(b: Blocks, bd: BlockData, bh: BlockHeader, sw: StreamWriters, st: IndexState): Blocks {
    Blocks(b.bds + [bd], b.bhs + [bh], b.trace + [sw], b.states + [st])
  }

  lemma {:induction false} StepStays(z: Compression, b: Blocks, b': Blocks, i: nat)
    requires HasLengths(b) && HasLengths(b') && i < |b.bds| && IsStep(z, b, i)
    requires b.bds <= b'.bds && b.bhs <= b'.bhs && b.trace <= b'.trace && b.states <= b'.states
    ensures IsStep(z, b', i)
  {
  }

  lemma {:induction false} LastIsStep(z: Compression, b: Blocks, bd: BlockData, bh: BlockHeader, sw: StreamWriters, st: IndexState)
    requires HasLengths(b) && IsWritten(b.trace[|b.bds|], bd, sw, bh)
    requires CanFollow(KeyOf(b.states[|b.bds|]), bh) && st == AddHeader(z, b.states[|b.bds|], bh)
    ensures IsStep(z, AddBlock(b, bd, bh, sw, st), |b.bds|)
  {
  }

  lemma {:induction false} BlockIsAdded(z: Compression, b: Blocks, bd: BlockData, bh: BlockHeader, sw: StreamWriters, st: IndexState)
    requires AreBlocks(z, b) && IsWritten(b.trace[|b.bds|], bd, sw, bh)
    requires CanFollow(KeyOf(b.states[|b.bds|]), bh) && st == AddHeader(z, b.states[|b.bds|], bh)
    ensures AreBlocks(z, AddBlock(b, bd, bh, sw, st))
  {
    var b' := AddBlock(b, bd, bh, sw, st);
    LastIsStep(z, b, bd, bh, sw, st);
    forall i | 0 <= i < |b'.bds|
      ensures IsStep(z, b', i)
    {
      if i < |b.bds| {
        StepStays(z, b, b', i);
      }
    }
  }

  /** What is written later only comes after what is there. */
  lemma {:induction false} TraceGrows(z: Compression, b: Blocks, i: nat, n: nat)
    requires AreBlocks(z, b) && i <= n <= |b.bds|
    ensures Grows(b.trace[i], b.trace[n])
  {
    if i < n {
      TraceGrows(z, b, i, n - 1);
      assert IsStep(z, b, n - 1);
      GrowsOn(b.trace[i], b.trace[n - 1], b.trace[n]);
    }
  }

  // ---------- The order of blocks ----------

  /** The stream and the minimum timestamp of the block before the k-th one. */
  function KeyBefore(bhs: seq<BlockHeader>, k: nat): (StreamID, Int64)
    requires k <= |bhs|
  {
    if k == 0 then (0, 0) else (bhs[k - 1].streamID, bhs[k - 1].timestampsHeader.minTimestamp)
  }

  predicate CanFollow(key: (StreamID, Int64), bh: BlockHeader) {
    key.0 < bh.streamID || (key.0 == bh.streamID && key.1 <= bh.timestampsHeader.minTimestamp)
  }

  function KeyOf(st: IndexState): (StreamID, Int64) {
    (st.sidLast, st.minTimestampLast)
  }

  lemma {:induction false} KeyIsTracked(z: Compression, b: Blocks, n: nat)
    requires AreBlocks(z, b) && n <= |b.bhs|
    ensures KeyOf(b.states[n]) == KeyBefore(b.bhs, n)
  {
    if n > 0 {
      assert IsStep(z, b, n - 1);
    }
  }

  /** Every block can follow the one before it. */
  lemma {:induction false} OrderAt(z: Compression, b: Blocks, i: nat)
    requires AreBlocks(z, b) && i < |b.bhs|
    ensures CanFollow(KeyBefore(b.bhs, i), b.bhs[i])
  {
    assert IsStep(z, b, i);
    KeyIsTracked(z, b, i);
  }

  lemma {:induction false} StreamsAscend(z: Compression, b: Blocks, i: nat, j: nat)
    requires AreBlocks(z, b) && i <= j < |b.bhs|
    ensures b.bhs[i].streamID <= b.bhs[j].streamID
  {
    if i < j {
      StreamsAscend(z, b, i, j - 1);
      OrderAt(z, b, j);
    }
  }

  // ---------- Collecting headers into index blocks ----------

  ghost predicate SmallGroup(group: seq<BlockHeader>) {
    group != [] && |MarshalBlockHeaders(group)| <= 2 * MAX_UNCOMPRESSED_INDEX_BLOCK_SIZE
  }

  ghost predicate SmallGroups(groups: seq<seq<BlockHeader>>) {
    forall g :: 0 <= g < |groups| ==> SmallGroup(groups[g])
  }

  /** Without its last header the index block was not full, which is more than 128 kibibytes. */
  ghost predicate IsCut(group: seq<BlockHeader>) {
    group != [] && |MarshalBlockHeaders(group[..|group| - 1])| <= 0x2_0000
  }

  /** Index blocks are cut where they are full; only the last one may be smaller. */
  ghost predicate AreCut(groups: seq<seq<BlockHeader>>) {
    forall g :: 0 <= g < |groups| ==> IsCut(groups[g]) && (g + 1 < |groups| ==> |MarshalBlockHeaders(groups[g])| > 0x2_0000)
  }

  ghost predicate AreFull(groups: seq<seq<BlockHeader>>) {
    forall g :: 0 <= g < |groups| ==> IsCut(groups[g]) && |MarshalBlockHeaders(groups[g])| > 0x2_0000
  }

  lemma {:induction false} LongerIsCut(group: seq<BlockHeader>, bh: BlockHeader)
    requires |MarshalBlockHeaders(group)| <= MAX_UNCOMPRESSED_INDEX_BLOCK_SIZE
    ensures IsCut(group + [bh])
  {
    assert (group + [bh])[..|group|] == group;
  }

  /** The headers of all blocks are in the written index blocks, or wait to be written. */
  ghost predicate IndexWritten(z: Compression, groups: seq<seq<BlockHeader>>, pending: seq<BlockHeader>, bhs: seq<BlockHeader>,
                               index: Bytes, metaindexData: Bytes, indexBlockData: Bytes) {
    SmallGroups(groups) && Flatten(groups) + pending == bhs && index == IndexData(z, groups) &&
    metaindexData == MarshalIndexBlockHeaders(IndexHeaders(z, groups)) && indexBlockData == MarshalBlockHeaders(pending)
  }

  lemma {:induction false} TotalsOfNext(bhs: seq<BlockHeader>, bh: BlockHeader)
    ensures SizeTo(bhs + [bh], |bhs| + 1) == SizeTo(bhs, |bhs|) + bh.uncompressedSizeBytes
    ensures RowsTo(bhs + [bh], |bhs| + 1) == RowsTo(bhs, |bhs|) + bh.rowsCount
    ensures var th := bh.timestampsHeader;
            MinTimestamp(bhs + [bh]) == (if bhs == [] || th.minTimestamp < MinTimestamp(bhs) then th.minTimestamp else MinTimestamp(bhs)) &&
            MaxTimestamp(bhs + [bh]) == (if bhs == [] || th.maxTimestamp > MaxTimestamp(bhs) then th.maxTimestamp else MaxTimestamp(bhs))
  {
    SameTotalsTo(bhs, bhs + [bh], |bhs|);
    var all := bhs + [bh];
    assert all[..|all| - 1] == bhs;
  }

  lemma {:induction false} HeaderIsPending(z: Compression, groups: seq<seq<BlockHeader>>, pending: seq<BlockHeader>, bhs: seq<BlockHeader>,
                        index: Bytes, metaindexData: Bytes, indexBlockData: Bytes, bh: BlockHeader)
    requires IndexWritten(z, groups, pending, bhs, index, metaindexData, indexBlockData) && SmallHeader(bh)
    ensures IndexWritten(z, groups, pending + [bh], bhs + [bh], index, metaindexData, indexBlockData + MarshalBlockHeader(bh))
    ensures 0 < |indexBlockData + MarshalBlockHeader(bh)| <= |indexBlockData| + 117
  {
    BlockHeaderLen(bh);
    var all := pending + [bh];
    assert all[..|all| - 1] == pending;
    assert Flatten(groups) + (pending + [bh]) == Flatten(groups) + pending + [bh];
  }

  lemma {:induction false} PendingIsFlushed(z: Compression, groups: seq<seq<BlockHeader>>, pending: seq<BlockHeader>, bhs: seq<BlockHeader>,
                         index: Bytes, metaindexData: Bytes, indexBlockData: Bytes)
    requires IndexWritten(z, groups, pending, bhs, index, metaindexData, indexBlockData) && pending != []
    requires |indexBlockData| <= 2 * MAX_UNCOMPRESSED_INDEX_BLOCK_SIZE
    ensures IndexWritten(z, groups + [pending], [], bhs, index + IndexBlock(z, pending),
                         metaindexData + MarshalIndexBlockHeader(IndexHeader(z, pending, |index|)), [])
  {
    GroupIsAdded(z, groups, pending);
    assert Flatten(groups + [pending]) + [] == bhs;
    HeaderIsAdded(IndexHeaders(z, groups), IndexHeader(z, pending, |index|));
  }

  lemma {:induction false} GroupIsAdded(z: Compression, groups: seq<seq<BlockHeader>>, group: seq<BlockHeader>)
    ensures Flatten(groups + [group]) == Flatten(groups) + group
    ensures IndexData(z, groups + [group]) == IndexData(z, groups) + IndexBlock(z, group)
    ensures IndexHeaders(z, groups + [group]) == IndexHeaders(z, groups) + [IndexHeader(z, group, |IndexData(z, groups)|)]
  {
    var all := groups + [group];
    assert all[..|all| - 1] == groups;
  }

  lemma {:induction false} HeaderIsAdded(ihs: seq<IndexBlockHeader>, ih: IndexBlockHeader)
    ensures MarshalIndexBlockHeaders(ihs + [ih]) == MarshalIndexBlockHeaders(ihs) + MarshalIndexBlockHeader(ih)
  {
    var all := ihs + [ih];
    assert all[..|all| - 1] == ihs;
  }

  lemma {:induction false} PendingHasData(pending: seq<BlockHeader>)
    ensures pending != [] ==> MarshalBlockHeaders(pending) != []
  {
    if pending != [] {
      var last := pending[|pending| - 1];
      assert |MarshalBlockHeader(last)| > 0;
    }
  }

  // ---------- What the writer keeps track of ----------

  /** The index block that is being collected, what has been written to the index, and the totals of the part. */
  datatype IndexState = IndexState(index: Bytes, metaindexData: Bytes, indexBlockData: Bytes,
    sidFirst: StreamID, minTimestamp: Int64, maxTimestamp: Int64, hasWrittenBlocks: bool,
    sidLast: StreamID, minTimestampLast: Int64, uncompressedSizeBytes: nat, rowsCount: nat, blocksCount: nat,
    globalMinTimestamp: Int64, globalMaxTimestamp: Int64)

  const NO_INDEX := IndexState([], [], [], 0, 0, 0, false, 0, 0, 0, 0, 0, 0, 0)

  function Lower(isFirst: bool, t: Int64, than: Int64): Int64 {
    if isFirst || t < than then t else than
  }

  function Higher(isFirst: bool, t: Int64, than: Int64): Int64 {
    if isFirst || t > than then t else than
  }

  /** Counts a header and takes its data into the index block. */
  function CountHeader(st: IndexState, bh: BlockHeader, data: Bytes): IndexState {
    var th := bh.timestampsHeader;
    st.(sidFirst := if st.hasWrittenBlocks then st.sidFirst else bh.streamID, hasWrittenBlocks := true, sidLast := bh.streamID,
        globalMinTimestamp := Lower(st.rowsCount == 0, th.minTimestamp, st.globalMinTimestamp),
        globalMaxTimestamp := Higher(st.rowsCount == 0, th.maxTimestamp, st.globalMaxTimestamp),
        minTimestamp := Lower(!st.hasWrittenBlocks, th.minTimestamp, st.minTimestamp),
        maxTimestamp := Higher(!st.hasWrittenBlocks, th.maxTimestamp, st.maxTimestamp),
        minTimestampLast := th.minTimestamp, uncompressedSizeBytes := st.uncompressedSizeBytes + bh.uncompressedSizeBytes,
        rowsCount := st.rowsCount + bh.rowsCount, blocksCount := st.blocksCount + 1,
        indexBlockData := st.indexBlockData + data)
  }

  /** The state when a block of the given stream is about to be written. */
  predicate Began(before: IndexState, after: IndexState, sid: StreamID) {
    after == before.(sidFirst := if before.hasWrittenBlocks then before.sidFirst else sid, hasWrittenBlocks := true, sidLast := sid)
  }

  /** Writes the index block, if it is not empty. */
  function Flush(z: Compression, st: IndexState): IndexState {
    var block := z.compress(st.indexBlockData, 1);
    var ih := IndexBlockHeader(st.sidFirst, st.minTimestamp, st.maxTimestamp, |st.index|, |block|);
    var st1 := if st.indexBlockData == [] then st
               else st.(index := st.index + block, metaindexData := st.metaindexData + MarshalIndexBlockHeader(ih), indexBlockData := []);
    st1.(hasWrittenBlocks := false, minTimestamp := 0, maxTimestamp := 0, sidFirst := 0)
  }

  function AddHeaderData(z: Compression, st: IndexState, bh: BlockHeader, data: Bytes): IndexState {
    var st1 := CountHeader(st, bh, data);
    if |st1.indexBlockData| > MAX_UNCOMPRESSED_INDEX_BLOCK_SIZE then Flush(z, st1) else st1
  }

  function AddHeader(z: Compression, st: IndexState, bh: BlockHeader): IndexState {
    AddHeaderData(z, st, bh, MarshalBlockHeader(bh))
  }

  /** What the state says of the headers of all blocks. */
  ghost predicate Tracks(z: Compression, st: IndexState, bhs: seq<BlockHeader>, groups: seq<seq<BlockHeader>>, pending: seq<BlockHeader>) {
    IndexWritten(z, groups, pending, bhs, st.index, st.metaindexData, st.indexBlockData) && TracksRange(st, pending) && TracksTotals(st, bhs)
  }

  ghost predicate TracksRange(st: IndexState, pending: seq<BlockHeader>) {
    st.hasWrittenBlocks == (pending != []) &&
    (pending != [] ==> st.sidFirst == pending[0].streamID && st.minTimestamp == MinTimestamp(pending) && st.maxTimestamp == MaxTimestamp(pending))
  }

  ghost predicate TracksTotals(st: IndexState, bhs: seq<BlockHeader>) {
    (st.sidLast, st.minTimestampLast) == KeyBefore(bhs, |bhs|) && (st.rowsCount == 0 <==> bhs == []) &&
    st.uncompressedSizeBytes == SizeTo(bhs, |bhs|) && st.rowsCount == RowsTo(bhs, |bhs|) && st.blocksCount == |bhs| &&
    st.globalMinTimestamp == MinTimestamp(bhs) && st.globalMaxTimestamp == MaxTimestamp(bhs)
  }

  lemma {:induction false} CountedTotals(st: IndexState, bhs: seq<BlockHeader>, bh: BlockHeader, data: Bytes)
    requires TracksTotals(st, bhs) && bh.rowsCount > 0
    ensures TracksTotals(CountHeader(st, bh, data), bhs + [bh])
  {
    TotalsOfNext(bhs, bh);
  }

  lemma {:induction false} CountedRange(st: IndexState, pending: seq<BlockHeader>, bh: BlockHeader, data: Bytes)
    requires TracksRange(st, pending)
    ensures TracksRange(CountHeader(st, bh, data), pending + [bh])
  {
    TotalsOfNext(pending, bh);
  }

  lemma {:induction false} FlushTracks(z: Compression, st: IndexState, bhs: seq<BlockHeader>, groups: seq<seq<BlockHeader>>, pending: seq<BlockHeader>)
      returns (groups': seq<seq<BlockHeader>>)
    requires Tracks(z, st, bhs, groups, pending) && |st.indexBlockData| <= 2 * MAX_UNCOMPRESSED_INDEX_BLOCK_SIZE
    ensures Tracks(z, Flush(z, st), bhs, groups', []) && groups' == groups + if pending == [] then [] else [pending]
  {
    PendingHasData(pending);
    if pending == [] {
      groups' := groups;
    } else {
      groups' := groups + [pending];
      PendingIsFlushed(z, groups, pending, bhs, st.index, st.metaindexData, st.indexBlockData);
    }
  }

  lemma {:induction false} AddTracks(z: Compression, st: IndexState, bhs: seq<BlockHeader>, groups: seq<seq<BlockHeader>>, pending: seq<BlockHeader>, bh: BlockHeader)
      returns (groups': seq<seq<BlockHeader>>, pending': seq<BlockHeader>)
    requires Tracks(z, st, bhs, groups, pending) && |st.indexBlockData| <= MAX_UNCOMPRESSED_INDEX_BLOCK_SIZE
    requires SmallHeader(bh) && bh.rowsCount > 0
    ensures Tracks(z, AddHeader(z, st, bh), bhs + [bh], groups', pending')
    ensures var full := |st.indexBlockData + MarshalBlockHeader(bh)| > MAX_UNCOMPRESSED_INDEX_BLOCK_SIZE;
            groups' == (if full then groups + [pending + [bh]] else groups) && pending' == if full then [] else pending + [bh]
    ensures |AddHeader(z, st, bh).indexBlockData| <= MAX_UNCOMPRESSED_INDEX_BLOCK_SIZE
  {
    HeaderIsPending(z, groups, pending, bhs, st.index, st.metaindexData, st.indexBlockData, bh);
    var data := MarshalBlockHeader(bh);
    CountedTotals(st, bhs, bh, data);
    CountedRange(st, pending, bh, data);
    groups', pending' := groups, pending + [bh];
    var st1 := CountHeader(st, bh, data);
    if |st1.indexBlockData| > MAX_UNCOMPRESSED_INDEX_BLOCK_SIZE {
      groups' := FlushTracks(z, st1, bhs + [bh], groups, pending');
      pending' := [];
    }
  }

  lemma {:induction false} StaysCut(indexBlockData: Bytes, groups: seq<seq<BlockHeader>>, pending: seq<BlockHeader>, bh: BlockHeader)
    requires indexBlockData == MarshalBlockHeaders(pending) && |indexBlockData| <= MAX_UNCOMPRESSED_INDEX_BLOCK_SIZE && AreFull(groups)
    ensures IsCut(pending + [bh])
    ensures |indexBlockData + MarshalBlockHeader(bh)| > MAX_UNCOMPRESSED_INDEX_BLOCK_SIZE ==> AreFull(groups + [pending + [bh]])
  {
    LongerIsCut(pending, bh);
    var all := pending + [bh];
    assert all[..|all| - 1] == pending;
  }

  lemma {:induction false} LastMayBeSmall(groups: seq<seq<BlockHeader>>, pending: seq<BlockHeader>)
    requires AreFull(groups) && (pending != [] ==> IsCut(pending))
    ensures AreCut(groups + if pending == [] then [] else [pending])
  {
  }

  lemma {:induction false} NextOfPrefix<T>(xs: seq<T>, n: nat)
    requires 0 < n <= |xs|
    ensures xs[..n] == xs[..n - 1] + [xs[n - 1]]
  {
  }

  /** The headers of all blocks are in index blocks or wait for it, and the totals are those of all blocks. */
  lemma {:induction false} StateTracks(z: Compression, b: Blocks, n: nat) returns (groups: seq<seq<BlockHeader>>, pending: seq<BlockHeader>)
    requires AreBlocks(z, b) && n <= |b.bhs|
    ensures AreFull(groups) && (pending != [] ==> IsCut(pending))
    ensures Tracks(z, b.states[n], b.bhs[..n], groups, pending) && |b.states[n].indexBlockData| <= MAX_UNCOMPRESSED_INDEX_BLOCK_SIZE
  {
    if n == 0 {
      groups, pending := [], [];
    } else {
      assert IsStep(z, b, n - 1);
      groups, pending := StateTracks(z, b, n - 1);
      NextOfPrefix(b.bhs, n);
      StaysCut(b.states[n - 1].indexBlockData, groups, pending, b.bhs[n - 1]);
      groups, pending := AddTracks(z, b.states[n - 1], b.bhs[..n - 1], groups, pending, b.bhs[n - 1]);
    }
  }

  // ---------- Finished parts ----------

  /** The files of a finished part are those of its blocks; ids is the order in which the shards of the columns are listed. */
  ghost predicate IsPart(z: Compression, part: Part, b: Blocks, groups: seq<seq<BlockHeader>>, ids: seq<nat>) {
    AreBlocks(z, b) && HoldsIndex(z, part, b.bhs, groups) && HoldsStreams(z, part, b.trace[|b.bds|], ids) &&
    HoldsTotals(part, b.bhs)
  }

  ghost predicate HoldsIndex(z: Compression, part: Part, bhs: seq<BlockHeader>, groups: seq<seq<BlockHeader>>) {
    SmallGroups(groups) && AreCut(groups) && Flatten(groups) == bhs && part.index == IndexData(z, groups) && |part.index| < UINT64_SIZE &&
    part.metaindex == z.compress(MarshalIndexBlockHeaders(IndexHeaders(z, groups)), 1)
  }

  ghost predicate HoldsStreams(z: Compression, part: Part, sw: StreamWriters, ids: seq<nat>) {
    ValidWriters(sw) && part.columnNames == MarshalColumnNames(z, sw.generator.columnNames) &&
    (forall id :: id in ids <==> id in sw.columnIdxs) && part.columnIdxs == MarshalVarUint64(|ids|) + MarshalIdxs(ids, sw.columnIdxs) &&
    part.columnsHeaderIndex == sw.columnsHeaderIndex && part.columnsHeader == sw.columnsHeader && part.timestamps == sw.timestamps &&
    part.message == sw.message && part.shards == sw.shards
  }

  ghost predicate HoldsTotals(part: Part, bhs: seq<BlockHeader>) {
    part.ph == PartHeader(PART_FORMAT_LATEST_VERSION, FilesSize(part), SizeTo(bhs, |bhs|), RowsTo(bhs, |bhs|), |bhs|,
                          MinTimestamp(bhs), MaxTimestamp(bhs), |part.shards|)
  }

  // ---------- The writer ----------

  const NO_HEADER := BlockHeader(0, 0, 0, TimestampsHeader(0, 0, 0, 0, 0), 0, 0, 0, 0)

  class BlockStreamWriter {
    const z: Compression
    var streamWriters: StreamWriters
    var index: Bytes
    var sidLast: StreamID
    var sidFirst: StreamID
    var minTimestampLast: Int64
    var minTimestamp: Int64
    var maxTimestamp: Int64
    var hasWrittenBlocks: bool
    var globalUncompressedSizeBytes: nat
    var globalRowsCount: nat
    var globalBlocksCount: nat
    var globalMinTimestamp: Int64
    var globalMaxTimestamp: Int64
    var indexBlockData: Bytes
    var metaindexData: Bytes

    /** What has been written. */
    ghost var blocks: Blocks

    function State(): IndexState
      reads this
    {
      IndexState(index, metaindexData, indexBlockData, sidFirst, minTimestamp, maxTimestamp, hasWrittenBlocks, sidLast, minTimestampLast,
                 globalUncompressedSizeBytes, globalRowsCount, globalBlocksCount, globalMinTimestamp, globalMaxTimestamp)
    }

    ghost predicate Valid()
      reads this
    {
      AreBlocks(z, blocks) && streamWriters == blocks.trace[|blocks.bds|] && ValidWriters(streamWriters) &&
      State() == blocks.states[|blocks.bds|]
    }

    constructor (z: Compression, maxShards: nat)
      requires maxShards > 0
      ensures Valid() && blocks.bds == [] && this.z == z
    {
      this.z := z;
      streamWriters := NoFiles(maxShards);
      index := [];
      sidLast, sidFirst, minTimestampLast, minTimestamp, maxTimestamp, hasWrittenBlocks := 0, 0, 0, 0, 0, false;
      globalUncompressedSizeBytes, globalRowsCount, globalBlocksCount, globalMinTimestamp, globalMaxTimestamp := 0, 0, 0, 0, 0;
      indexBlockData, metaindexData := [], [];
      blocks := Blocks([], [], [NoFiles(maxShards)], [NO_INDEX]);
    }

    method MustWriteColumn(cd: ColumnData) returns (ch: ColumnHeader)
      requires ValidWriters(streamWriters)
      modifies this`streamWriters
      ensures (streamWriters, ch) == WriteColumn(old(streamWriters), cd) && ValidWriters(streamWriters)
    {
      ColumnGrows(streamWriters, cd);
      ShardIsNext(streamWriters, cd.name);
      var (sw1, place) := GetBloomValuesWriter(streamWriters, cd.name);
      var bv := ValuesAt(sw1, place);
      ch := HeaderOf(cd, bv);
      streamWriters := WithValues(sw1, place, AppendTo(bv, cd));
    }

    method MustWriteColumns(cds: seq<ColumnData>) returns (chs: seq<ColumnHeader>)
      requires ValidWriters(streamWriters)
      modifies this`streamWriters
      ensures (streamWriters, chs) == WriteColumns(old(streamWriters), cds) && ValidWriters(streamWriters)
    {
      chs := [];
      for i := 0 to |cds|
        invariant (streamWriters, chs) == WriteColumns(old(streamWriters), cds[..i]) && ValidWriters(streamWriters)
      {
        assert cds[..i + 1][..i] == cds[..i];
        var ch := MustWriteColumn(cds[i]);
        chs := chs + [ch];
      }
      assert cds[..|cds|] == cds;
    }

    method MustWriteBlockTo(bd: BlockData) returns (bh: BlockHeader)
      requires ValidWriters(streamWriters)
      modifies this`streamWriters
      ensures (streamWriters, bh) == WriteBlock(old(streamWriters), bd)
    {
      var (sw1, th) := WriteTimestamps(streamWriters, bd.timestampsData);
      streamWriters := sw1;
      var chs := MustWriteColumns(bd.columnsData);
      var h := MarshalHeader(streamWriters.generator, chs, bd.constColumns);
      bh := BlockHeader(bd.streamID, bd.uncompressedSizeBytes, bd.rowsCount, th,
                        |streamWriters.columnsHeaderIndex|, |h.index|, |streamWriters.columnsHeader|, |h.data|);
      streamWriters := WriteHeader(streamWriters, chs, bd.constColumns);
    }

    /** Fails, where the writer would panic, exactly on a block out of order or with headers that are too big. */
    method MustWriteBlockData(bd: BlockData) returns (ok: bool, bh: BlockHeader)
      requires Valid() && (bd.rowsCount > 0 ==> ValidBlock(bd))
      modifies this
      ensures ok <==> bd.rowsCount == 0 || (CanFollow(old((sidLast, minTimestampLast)), bh) && FitsInPart(bh))
      ensures bd.rowsCount > 0 && old(sidLast) <= bd.streamID ==> IsHeaderOf(bh, bd)
      ensures ok ==> Valid() && blocks == if bd.rowsCount == 0 then old(blocks) else AddBlock(old(blocks), bd, bh, streamWriters, State())
    {
      bh := NO_HEADER.(streamID := bd.streamID);
      if bd.rowsCount == 0 {
        ok := true;
        return;
      }
      if bd.streamID < sidLast {
        ok := false;
        return;
      }
      ghost var st, sw := State(), streamWriters;
      var isFirst, isSeenSid := BeginBlock(bd.streamID);
      bh := WriteStreams(bd);
      if !FitsInPart(bh) {
        ok := false;
        return;
      }
      ok := AddWrittenBlock(bd, bh, isFirst, isSeenSid, st, sw);
    }

    method AddWrittenBlock(ghost bd: BlockData, bh: BlockHeader, isFirst: bool, isSeenSid: bool, ghost st: IndexState, ghost sw: StreamWriters)
        returns (ok: bool)
      requires AreBlocks(z, blocks) && st == blocks.states[|blocks.bds|] && sw == blocks.trace[|blocks.bds|]
      requires IsWritten(sw, bd, streamWriters, bh) && ValidWriters(streamWriters)
      requires Began(st, State(), bh.streamID) && isFirst == !st.hasWrittenBlocks && isSeenSid == (bh.streamID == st.sidLast) && st.sidLast <= bh.streamID
      modifies this`globalMinTimestamp, this`globalMaxTimestamp, this`minTimestamp, this`maxTimestamp, this`minTimestampLast,
               this`globalUncompressedSizeBytes, this`globalRowsCount, this`globalBlocksCount, this`indexBlockData,
               this`index, this`metaindexData, this`hasWrittenBlocks, this`sidFirst, this`blocks
      ensures ok <==> CanFollow(KeyOf(st), bh)
      ensures ok ==> Valid() && blocks == AddBlock(old(blocks), bd, bh, streamWriters, State())
    {
      ok := CountBlock(bh, MarshalBlockHeader(bh), isFirst, isSeenSid, st);
      if ok {
        BlockIsAdded(z, blocks, bd, bh, streamWriters, State());
        blocks := AddBlock(blocks, bd, bh, streamWriters, State());
      }
    }

    method WriteStreams(bd: BlockData) returns (bh: BlockHeader)
      requires ValidWriters(streamWriters) && ValidBlock(bd)
      modifies this`streamWriters
      ensures IsHeaderOf(bh, bd) && ValidWriters(streamWriters)
      ensures FitsInPart(bh) ==> IsWritten(old(streamWriters), bd, streamWriters, bh)
    {
      BlockIsWritten(streamWriters, bd);
      bh := MustWriteBlockTo(bd);
    }

    method BeginBlock(sid: StreamID) returns (isFirst: bool, isSeenSid: bool)
      modifies this`sidFirst, this`hasWrittenBlocks, this`sidLast
      ensures Began(old(State()), State(), sid) && isFirst == !old(hasWrittenBlocks) && isSeenSid == (sid == old(sidLast))
    {
      isFirst := !hasWrittenBlocks;
      if isFirst {
        sidFirst := sid;
        hasWrittenBlocks := true;
      }
      isSeenSid := sid == sidLast;
      sidLast := sid;
    }

    method UpdateTimeRanges(th: TimestampsHeader, isFirst: bool)
      modifies this`globalMinTimestamp, this`globalMaxTimestamp, this`minTimestamp, this`maxTimestamp
      ensures globalMinTimestamp == Lower(globalRowsCount == 0, th.minTimestamp, old(globalMinTimestamp))
      ensures globalMaxTimestamp == Higher(globalRowsCount == 0, th.maxTimestamp, old(globalMaxTimestamp))
      ensures minTimestamp == Lower(isFirst, th.minTimestamp, old(minTimestamp))
      ensures maxTimestamp == Higher(isFirst, th.maxTimestamp, old(maxTimestamp))
    {
      if globalRowsCount == 0 || th.minTimestamp < globalMinTimestamp {
        globalMinTimestamp := th.minTimestamp;
      }
      if globalRowsCount == 0 || th.maxTimestamp > globalMaxTimestamp {
        globalMaxTimestamp := th.maxTimestamp;
      }
      if isFirst || th.minTimestamp < minTimestamp {
        minTimestamp := th.minTimestamp;
      }
      if isFirst || th.maxTimestamp > maxTimestamp {
        maxTimestamp := th.maxTimestamp;
      }
    }

    /** Counts a block that has been written, and flushes a full index block. */
    method CountBlock(bh: BlockHeader, data: Bytes, isFirst: bool, isSeenSid: bool, ghost st: IndexState) returns (ok: bool)
      requires Began(st, State(), bh.streamID) && isFirst == !st.hasWrittenBlocks
      modifies this`globalMinTimestamp, this`globalMaxTimestamp, this`minTimestamp, this`maxTimestamp, this`minTimestampLast,
               this`globalUncompressedSizeBytes, this`globalRowsCount, this`globalBlocksCount, this`indexBlockData,
               this`index, this`metaindexData, this`hasWrittenBlocks, this`sidFirst
      ensures ok <==> !isSeenSid || st.minTimestampLast <= bh.timestampsHeader.minTimestamp
      ensures ok ==> State() == AddHeaderData(z, st, bh, data)
    {
      var th := bh.timestampsHeader;
      UpdateTimeRanges(th, isFirst);
      if isSeenSid && th.minTimestamp < minTimestampLast {
        return false;
      }
      minTimestampLast := th.minTimestamp;
      globalUncompressedSizeBytes := globalUncompressedSizeBytes + bh.uncompressedSizeBytes;
      globalRowsCount := globalRowsCount + bh.rowsCount;
      globalBlocksCount := globalBlocksCount + 1;
      indexBlockData := indexBlockData + data;
      assert State() == CountHeader(st, bh, data);
      if |indexBlockData| > MAX_UNCOMPRESSED_INDEX_BLOCK_SIZE {
        MustFlushIndexBlock();
        indexBlockData := [];
      }
      return true;
    }

    /** Writes the index block that has been collected and its header. */
    method MustFlushIndexBlock()
      modifies this`index, this`metaindexData, this`hasWrittenBlocks, this`minTimestamp, this`maxTimestamp, this`sidFirst
      ensures State().(indexBlockData := []) == Flush(z, old(State()))
    {
      if |indexBlockData| > 0 {
        var block := z.compress(indexBlockData, 1);
        var ih := IndexBlockHeader(sidFirst, minTimestamp, maxTimestamp, |index|, |block|);
        index := index + block;
        metaindexData := metaindexData + MarshalIndexBlockHeader(ih);
      }
      hasWrittenBlocks := false;
      minTimestamp, maxTimestamp, sidFirst := 0, 0, 0;
    }

    /** The files of the part; the writer is not used after that. */
    method Finalize() returns (part: Part, ghost groups: seq<seq<BlockHeader>>, ghost ids: seq<nat>)
      requires Valid() && |Flush(z, State()).index| < UINT64_SIZE
      modifies this
      ensures IsPart(z, part, old(blocks), groups, ids)
    {
      groups := FinalGroups(z, blocks);
      ghost var st := Flush(z, State());
      MustFlushIndexBlock();
      var columnIdxs;
      columnIdxs, ids := MarshalColumnIdxs(streamWriters.columnIdxs);
      part := WriteRest(columnIdxs);
      assert IsPartOf(z, part, State().(indexBlockData := []), streamWriters);
      FilesArePart(z, blocks, st, groups, ids, part);
    }

    method WriteRest(columnIdxs: Bytes) returns (part: Part)
      ensures IsPartOf(z, part, State(), streamWriters) && part.columnIdxs == columnIdxs
    {
      var columnNames := MarshalColumnNames(z, streamWriters.generator.columnNames);
      var metaindex := z.compress(metaindexData, 1);
      var ph := PartHeader(PART_FORMAT_LATEST_VERSION, 0, globalUncompressedSizeBytes, globalRowsCount, globalBlocksCount,
                           globalMinTimestamp, globalMaxTimestamp, |streamWriters.shards|);
      part := Part(ph, columnNames, columnIdxs, metaindex, index, streamWriters.columnsHeaderIndex, streamWriters.columnsHeader,
                   streamWriters.timestamps, streamWriters.message, streamWriters.shards);
      part := part.(ph := ph.(compressedSizeBytes := FilesSize(part)));
    }
  }

  /** The headers of written blocks can be counted and collected. */
  lemma {:induction false} HeadersAreSmall(z: Compression, b: Blocks)
    requires AreBlocks(z, b)
    ensures forall i :: 0 <= i < |b.bhs| ==> SmallHeader(b.bhs[i]) && b.bhs[i].rowsCount > 0 && ValidBlockHeader(b.bhs[i])
  {
    forall i | 0 <= i < |b.bhs|
      ensures SmallHeader(b.bhs[i]) && b.bhs[i].rowsCount > 0 && ValidBlockHeader(b.bhs[i])
    {
      assert IsStep(z, b, i);
    }
  }

  /** The files hold what the writers have, and the header of the part holds the totals. */
  ghost predicate IsPartOf(z: Compression, part: Part, st: IndexState, sw: StreamWriters) {
    part.ph == PartHeader(PART_FORMAT_LATEST_VERSION, FilesSize(part), st.uncompressedSizeBytes, st.rowsCount, st.blocksCount,
                          st.globalMinTimestamp, st.globalMaxTimestamp, |part.shards|) &&
    part.index == st.index && part.metaindex == z.compress(st.metaindexData, 1) &&
    part.columnNames == MarshalColumnNames(z, sw.generator.columnNames) && part.columnsHeaderIndex == sw.columnsHeaderIndex &&
    part.columnsHeader == sw.columnsHeader && part.timestamps == sw.timestamps && part.message == sw.message && part.shards == sw.shards
  }

  lemma {:induction false} FilesArePart(z: Compression, b: Blocks, st: IndexState, groups: seq<seq<BlockHeader>>, ids: seq<nat>, part: Part)
    requires AreBlocks(z, b) && ValidWriters(b.trace[|b.bds|]) && |st.index| < UINT64_SIZE
    requires SmallGroups(groups) && AreCut(groups) && Flatten(groups) == b.bhs && st.index == IndexData(z, groups)
    requires st.metaindexData == MarshalIndexBlockHeaders(IndexHeaders(z, groups)) && TracksTotals(st, b.bhs)
    requires IsPartOf(z, part, st, b.trace[|b.bds|])
    requires var sw := b.trace[|b.bds|];
             (forall id :: id in ids <==> id in sw.columnIdxs) && part.columnIdxs == MarshalVarUint64(|ids|) + MarshalIdxs(ids, sw.columnIdxs)
    ensures IsPart(z, part, b, groups, ids)
  {
  }

  /** How the headers are spread over index blocks when everything has been flushed. */
  lemma {:induction false} FinalGroups(z: Compression, b: Blocks) returns (groups: seq<seq<BlockHeader>>)
    requires AreBlocks(z, b)
    ensures var st := Flush(z, b.states[|b.bds|]);
            SmallGroups(groups) && AreCut(groups) && Flatten(groups) == b.bhs && st.index == IndexData(z, groups) &&
            st.metaindexData == MarshalIndexBlockHeaders(IndexHeaders(z, groups)) && TracksTotals(st, b.bhs)
  {
    var groups0, pending := StateTracks(z, b, |b.bhs|);
    assert b.bhs[..|b.bhs|] == b.bhs;
    LastMayBeSmall(groups0, pending);
    groups := FlushTracks(z, b.states[|b.bds|], b.bhs, groups0, pending);
    assert Flatten(groups) + [] == Flatten(groups);
  }
}
