/** Reading a part back as a stream of blocks: exactly the blocks that were written. */
module PartReaders {
  import BE = BigEndian
  import opened StringsBlock
  import opened PartHeaders
  import opened ColumnNames
  import opened PartFiles
  import opened PartStreams

  // ---------- What a reader does ----------

  /** How far a part has been read. */
  datatype ReaderState = ReaderState(ph: PartHeader, streamReaders: StreamReaders, indexReader: Reader, wholeFilesRead: nat,
    indexBlockHeaders: seq<IndexBlockHeader>, blockHeaders: seq<BlockHeader>, nextIndexBlockIdx: nat, nextBlockIdx: nat,
    uncompressedSizeBytes: nat, rowsCount: nat, blocksCount: nat, sidLast: StreamID, minTimestampLast: Int64)

  datatype Option<T> = None | Some(value: T)

  function ShardsRead(shards: seq<BloomValuesReader>): nat {
    if shards == [] then 0
    else ShardsRead(shards[..|shards| - 1]) + shards[|shards| - 1].bloom.bytesRead + shards[|shards| - 1].values.bytesRead
  }

  function TotalBytesRead(st: ReaderState): nat {
    var sr := st.streamReaders;
    st.wholeFilesRead + st.indexReader.bytesRead + sr.columnsHeaderIndex.bytesRead + sr.columnsHeader.bytesRead +
    sr.timestamps.bytesRead + sr.message.bloom.bytesRead + sr.message.values.bytesRead + ShardsRead(sr.shards)
  }

  /** The checks made when there is nothing left to be read. */
  predicate AllIsRead(st: ReaderState) {
    st.ph.compressedSizeBytes == TotalBytesRead(st) && st.ph.uncompressedSizeBytes == st.uncompressedSizeBytes &&
    st.ph.rowsCount == st.rowsCount && st.ph.blocksCount == st.blocksCount
  }

  /** Err stands for a panic here and below. */
  function ReadIndexBlock(z: Compression, ih: IndexBlockHeader, r: Reader): Result<(seq<BlockHeader>, Reader)> {
    var (block, r') :- ReadAt(r, ih.indexBlockOffset, ih.indexBlockSize);
    var data :- z.decompress(block);
    var bhs :- UnmarshalBlockHeaders(data);
    Ok((bhs, r'))
  }

  /** Whether there is another index block. */
  function IndexBlockAfter(z: Compression, st: ReaderState): Result<(bool, ReaderState)> {
    if st.nextIndexBlockIdx >= |st.indexBlockHeaders| then
      if AllIsRead(st) then Ok((false, st)) else Err
    else
      var ih := st.indexBlockHeaders[st.nextIndexBlockIdx];
      if ih.minTimestamp < st.ph.minTimestamp || ih.maxTimestamp > st.ph.maxTimestamp then Err
      else
        var (bhs, r) :- ReadIndexBlock(z, ih, st.indexReader);
        Ok((true, st.(indexReader := r, blockHeaders := bhs, nextIndexBlockIdx := st.nextIndexBlockIdx + 1, nextBlockIdx := 0)))
  }

  /** The block is in order, and in the time range of its index block. */
  predicate IsExpected(st: ReaderState, ih: IndexBlockHeader, bh: BlockHeader) {
    CanFollow((st.sidLast, st.minTimestampLast), bh) &&
    ih.minTimestamp <= bh.timestampsHeader.minTimestamp && bh.timestampsHeader.maxTimestamp <= ih.maxTimestamp
  }

  function CountBlock(st: ReaderState, bh: BlockHeader, sr: StreamReaders): ReaderState {
    st.(streamReaders := sr, uncompressedSizeBytes := st.uncompressedSizeBytes + bh.uncompressedSizeBytes,
        rowsCount := st.rowsCount + bh.rowsCount, blocksCount := st.blocksCount + 1, nextBlockIdx := st.nextBlockIdx + 1,
        sidLast := bh.streamID, minTimestampLast := bh.timestampsHeader.minTimestamp)
  }

  predicate WithinTotals(st: ReaderState) {
    st.uncompressedSizeBytes <= st.ph.uncompressedSizeBytes && st.rowsCount <= st.ph.rowsCount && st.blocksCount <= st.ph.blocksCount
  }

  /** Reads the next block of the current index block. */
  function ReadNext(st: ReaderState): Result<(BlockData, ReaderState)>
    requires st.nextBlockIdx < |st.blockHeaders|
  {
    if !ExpectsNext(st) then Err else ReadExpected(st, st.blockHeaders[st.nextBlockIdx])
  }

  predicate ExpectsNext(st: ReaderState)
    requires st.nextBlockIdx < |st.blockHeaders|
  {
    0 < st.nextIndexBlockIdx <= |st.indexBlockHeaders| &&
    IsExpected(st, st.indexBlockHeaders[st.nextIndexBlockIdx - 1], st.blockHeaders[st.nextBlockIdx])
  }

  function ReadExpected(st: ReaderState, bh: BlockHeader): Result<(BlockData, ReaderState)> {
    var (bd, sr) :- ReadBlock(st.streamReaders, bh);
    var st' := CountBlock(st, bh, sr);
    if WithinTotals(st') then Ok((bd, st')) else Err
  }

  /** The next block, or None when all blocks have been read. */
  function BlockAfter(z: Compression, st: ReaderState): Result<(Option<BlockData>, ReaderState)>
    decreases |st.indexBlockHeaders| - st.nextIndexBlockIdx
  {
    if st.nextBlockIdx >= |st.blockHeaders| then
      var (more, st') :- IndexBlockAfter(z, st);
      if more then BlockAfter(z, st') else Ok((None, st'))
    else
      var (bd, st') :- ReadNext(st);
      Ok((Some(bd), st'))
  }

  function NewReader(data: Bytes): Reader {
    Reader(data, 0)
  }

  function NewReaders(shards: seq<BloomValues>): (r: seq<BloomValuesReader>)
    ensures |r| == |shards| && forall i :: 0 <= i < |r| ==> r[i] == BloomValuesReader(NewReader(shards[i].bloom), NewReader(shards[i].values))
  {
    if shards == [] then [] else [BloomValuesReader(NewReader(shards[0].bloom), NewReader(shards[0].values))] + NewReaders(shards[1..])
  }

  /** Checks the header and opens the files; the small files are read as a whole. */
  function OpenPart(z: Compression, part: Part): Result<ReaderState> {
    if part.ph.formatVersion > PART_FORMAT_LATEST_VERSION || part.ph.minTimestamp > part.ph.maxTimestamp || part.ph.blocksCount > part.ph.rowsCount ||
       part.ph.bloomValuesShardsCount != |part.shards| then Err
    else
      var columnNames :- ReadColumnNames(z, part.columnNames);
      var columnIdxs :- ReadColumnIdxs(part.columnIdxs, columnNames, |part.shards|);
      var metaindexData :- z.decompress(part.metaindex);
      var ihs :- UnmarshalIndexBlockHeaders(metaindexData);
      Ok(Opened(part, columnNames, columnIdxs, ihs))
  }

  // ---------- The layout of an index ----------

  /** The index blocks, their headers, what is before each of them in the index file, and how many blocks. */
  datatype Layout = Layout(groups: seq<seq<BlockHeader>>, ihs: seq<IndexBlockHeader>, before: seq<Bytes>, starts: seq<nat>)

  ghost predicate IsLayout(z: Compression, index: Bytes, bhs: seq<BlockHeader>, l: Layout) {
    |l.ihs| == |l.groups| && |l.before| == |l.groups| + 1 && |l.starts| == |l.groups| + 1 &&
    l.before[0] == [] && l.starts[0] == 0 && l.before[|l.groups|] == index && l.starts[|l.groups|] == |bhs| &&
    forall g :: 0 <= g < |l.groups| ==> IsGroup(z, index, bhs, l.groups[g], l.ihs[g], l.before[g], l.before[g + 1], l.starts[g], l.starts[g + 1])
  }

  ghost predicate IsGroup(z: Compression, index: Bytes, bhs: seq<BlockHeader>, group: seq<BlockHeader>, ih: IndexBlockHeader,
                          before: Bytes, after: Bytes, start: nat, end: nat) {
    SmallGroup(group) && ih == IndexHeader(z, group, |before|) && after == before + IndexBlock(z, group) && after <= index &&
    end == start + |group| && end <= |bhs| && forall i :: 0 <= i < |group| ==> group[i] == bhs[start + i]
  }

  lemma {:induction false} LayoutOf(z: Compression, groups: seq<seq<BlockHeader>>) returns (l: Layout)
    requires SmallGroups(groups)
    ensures IsLayout(z, IndexData(z, groups), Flatten(groups), l) && l.groups == groups && l.ihs == IndexHeaders(z, groups)
  {
    if groups == [] {
      l := Layout([], [], [[]], [0]);
    } else {
      var front, last := groups[..|groups| - 1], groups[|groups| - 1];
      LastOf(groups);
      assert SmallGroup(last);
      var l0 := LayoutOf(z, front);
      l := AddGroup(z, front, last, l0);
    }
  }

  lemma {:induction false} AddGroup(z: Compression, groups: seq<seq<BlockHeader>>, group: seq<BlockHeader>, l: Layout) returns (l': Layout)
    requires IsLayout(z, IndexData(z, groups), Flatten(groups), l) && l.groups == groups && l.ihs == IndexHeaders(z, groups) && SmallGroup(group)
    ensures IsLayout(z, IndexData(z, groups + [group]), Flatten(groups + [group]), l')
    ensures l'.groups == groups + [group] && l'.ihs == IndexHeaders(z, groups + [group])
  {
    GroupIsAdded(z, groups, group);
    l' := NextLayout(z, IndexData(z, groups), Flatten(groups), l, group);
  }

  lemma {:induction false} NextLayout(z: Compression, index: Bytes, bhs: seq<BlockHeader>, l: Layout, group: seq<BlockHeader>) returns (l': Layout)
    requires IsLayout(z, index, bhs, l) && SmallGroup(group)
    ensures IsLayout(z, index + IndexBlock(z, group), bhs + group, l')
    ensures l'.groups == l.groups + [group] && l'.ihs == l.ihs + [IndexHeader(z, group, |index|)]
  {
    var index', bhs' := index + IndexBlock(z, group), bhs + group;
    l' := Layout(l.groups + [group], l.ihs + [IndexHeader(z, group, |index|)], l.before + [index'], l.starts + [|bhs'|]);
    forall g | 0 <= g < |l'.groups|
      ensures IsGroup(z, index', bhs', l'.groups[g], l'.ihs[g], l'.before[g], l'.before[g + 1], l'.starts[g], l'.starts[g + 1])
    {
      if g < |l.groups| {
        assert IsGroup(z, index, bhs, l.groups[g], l.ihs[g], l.before[g], l.before[g + 1], l.starts[g], l.starts[g + 1]);
        StaysGroup(z, index, bhs, l.groups[g], l.ihs[g], l.before[g], l.before[g + 1], l.starts[g], l.starts[g + 1], index', bhs');
      }
    }
  }

  lemma {:induction false} StaysGroup(z: Compression, index: Bytes, bhs: seq<BlockHeader>, group: seq<BlockHeader>, ih: IndexBlockHeader,
      before: Bytes, after: Bytes, start: nat, end: nat, index': Bytes, bhs': seq<BlockHeader>)
    requires IsGroup(z, index, bhs, group, ih, before, after, start, end) && index <= index' && bhs <= bhs'
    ensures IsGroup(z, index', bhs', group, ih, before, after, start, end)
  {
  }

  lemma {:induction false} TimeRangeIsAttained(bhs: seq<BlockHeader>) returns (i: nat, j: nat)
    requires bhs != []
    ensures i < |bhs| && j < |bhs|
    ensures MinTimestamp(bhs) == bhs[i].timestampsHeader.minTimestamp && MaxTimestamp(bhs) == bhs[j].timestampsHeader.maxTimestamp
  {
    i, j := |bhs| - 1, |bhs| - 1;
    if |bhs| > 1 {
      var i1, j1 := TimeRangeIsAttained(bhs[..|bhs| - 1]);
      if bhs[i].timestampsHeader.minTimestamp >= MinTimestamp(bhs[..|bhs| - 1]) {
        i := i1;
      }
      if bhs[j].timestampsHeader.maxTimestamp <= MaxTimestamp(bhs[..|bhs| - 1]) {
        j := j1;
      }
    }
  }

  /** Every index block covers the time ranges of its blocks, and the part covers those of its index blocks. */
  lemma {:induction false} TimeRangesCover(z: Compression, index: Bytes, bhs: seq<BlockHeader>, group: seq<BlockHeader>, ih: IndexBlockHeader,
      before: Bytes, after: Bytes, start: nat, end: nat)
    requires IsGroup(z, index, bhs, group, ih, before, after, start, end)
    ensures MinTimestamp(bhs) <= ih.minTimestamp && ih.maxTimestamp <= MaxTimestamp(bhs)
    ensures forall i :: 0 <= i < |group| ==>
      ih.minTimestamp <= group[i].timestampsHeader.minTimestamp && group[i].timestampsHeader.maxTimestamp <= ih.maxTimestamp
  {
    TimeRangeCovers(bhs);
    TimeRangeCovers(group);
    var i, j := TimeRangeIsAttained(group);
    assert group[i] == bhs[start + i] && group[j] == bhs[start + j];
  }

  // ---------- Index blocks ----------

  lemma {:induction false} ChunkIsRead(z: Compression, group: seq<BlockHeader>, index: Bytes, before: Bytes, ih: IndexBlockHeader)
    requires Invertible(z) && CompressesIndexBlocks(z) && SmallGroup(group)
    requires before + IndexBlock(z, group) <= index && ih.indexBlockOffset == |before| && ih.indexBlockSize == |IndexBlock(z, group)|
    requires UnmarshalBlockHeaders(MarshalBlockHeaders(group)) == Ok(group)
    ensures ReadIndexBlock(z, ih, Reader(index, |before|)) == Ok((group, Reader(index, |before + IndexBlock(z, group)|)))
  {
    var block := IndexBlock(z, group);
    assert before <= before + block <= index;
    ReadsBack(Reader(index, |before|), before, block, index);
  }

  /** The headers of blocks in order are in order, and valid, in their index block, too. */
  lemma {:induction false} GroupIsRead(z: Compression, b: Blocks, index: Bytes, group: seq<BlockHeader>, ih: IndexBlockHeader,
      before: Bytes, after: Bytes, start: nat, end: nat)
    requires Invertible(z) && CompressesIndexBlocks(z) && AreBlocks(z, b)
    requires IsGroup(z, index, b.bhs, group, ih, before, after, start, end)
    ensures ReadIndexBlock(z, ih, Reader(index, |before|)) == Ok((group, Reader(index, |after|)))
  {
    HeadersAreSmall(z, b);
    GroupIsOrdered(z, b, group, start);
    BlockHeadersRoundTrip(group);
    ChunkIsRead(z, group, index, before, ih);
  }

  lemma {:induction false} GroupIsOrdered(z: Compression, b: Blocks, group: seq<BlockHeader>, start: nat)
    requires AreBlocks(z, b) && start + |group| <= |b.bhs| && forall i :: 0 <= i < |group| ==> group[i] == b.bhs[start + i]
    ensures OrderedBlocks(group)
  {
    forall i | 1 <= i < |group|
      ensures InOrder(group[i - 1], group[i])
    {
      OrderAt(z, b, start + i);
      assert group[i] == b.bhs[start + i] && group[i - 1] == b.bhs[start + (i - 1)];
    }
  }

  lemma {:induction false} HeadersAscend(z: Compression, index: Bytes, b: Blocks, l: Layout)
    requires AreBlocks(z, b) && IsLayout(z, index, b.bhs, l)
    ensures OrderedByStream(l.ihs)
  {
    forall g | 1 <= g < |l.ihs|
      ensures l.ihs[g - 1].streamID <= l.ihs[g].streamID
    {
      var h := g - 1;
      assert IsGroup(z, index, b.bhs, l.groups[h], l.ihs[h], l.before[h], l.before[h + 1], l.starts[h], l.starts[h + 1]);
      assert IsGroup(z, index, b.bhs, l.groups[g], l.ihs[g], l.before[g], l.before[g + 1], l.starts[g], l.starts[g + 1]);
      HeadsAscend(z, b, l.groups[h], l.groups[g], l.starts[h], l.starts[g]);
    }
  }

  lemma {:induction false} HeadsAscend(z: Compression, b: Blocks, first: seq<BlockHeader>, second: seq<BlockHeader>, i: nat, j: nat)
    requires AreBlocks(z, b) && i <= j < |b.bhs| && first != [] && second != [] && first[0] == b.bhs[i] && second[0] == b.bhs[j]
    ensures first[0].streamID <= second[0].streamID
  {
    StreamsAscend(z, b, i, j);
  }

  lemma {:induction false} HeadersAreValid(z: Compression, b: Blocks, index: Bytes, l: Layout)
    requires AreBlocks(z, b) && IsLayout(z, index, b.bhs, l) && |index| < UINT64_SIZE
    ensures forall g :: 0 <= g < |l.ihs| ==> ValidIndexBlockHeader(l.ihs[g])
  {
    HeadersAreSmall(z, b);
    forall g | 0 <= g < |l.ihs|
      ensures ValidIndexBlockHeader(l.ihs[g])
    {
      assert IsGroup(z, index, b.bhs, l.groups[g], l.ihs[g], l.before[g], l.before[g + 1], l.starts[g], l.starts[g + 1]);
      assert l.groups[g][0] == b.bhs[l.starts[g] + 0];
    }
  }

  // ---------- Where a reader of a finished part is ----------

  /** The k-th block is the next one in the index. */
  ghost predicate AtIndex(index: Bytes, l: Layout, k: nat, st: ReaderState)
    requires |l.before| == |l.groups| + 1 == |l.starts|
  {
    st.indexBlockHeaders == l.ihs && st.nextIndexBlockIdx <= |l.groups| && st.indexReader == Reader(index, |l.before[st.nextIndexBlockIdx]|) &&
    st.nextBlockIdx <= |st.blockHeaders| && k + (|st.blockHeaders| - st.nextBlockIdx) == l.starts[st.nextIndexBlockIdx] &&
    st.blockHeaders == if st.nextIndexBlockIdx == 0 then [] else l.groups[st.nextIndexBlockIdx - 1]
  }

  ghost predicate AtTotals(bhs: seq<BlockHeader>, k: nat, st: ReaderState)
    requires k <= |bhs|
  {
    st.uncompressedSizeBytes == SizeTo(bhs, k) && st.rowsCount == RowsTo(bhs, k) && st.blocksCount == k &&
    (st.sidLast, st.minTimestampLast) == KeyBefore(bhs, k)
  }

  /** What the header of a part says of its blocks. */
  ghost predicate IsHeaderOfPart(ph: PartHeader, bhs: seq<BlockHeader>) {
    ph.uncompressedSizeBytes == SizeTo(bhs, |bhs|) && ph.rowsCount == RowsTo(bhs, |bhs|) && ph.blocksCount == |bhs| &&
    ph.minTimestamp == MinTimestamp(bhs) && ph.maxTimestamp == MaxTimestamp(bhs)
  }

  /** The blocks, their index, and a reader of them that has read k blocks. */
  ghost predicate AtBlock(z: Compression, index: Bytes, b: Blocks, l: Layout, k: nat, st: ReaderState) {
    AreBlocks(z, b) && IsLayout(z, index, b.bhs, l) && k <= |b.bds| && IsHeaderOfPart(st.ph, b.bhs) &&
    AtIndex(index, l, k, st) && AtTotals(b.bhs, k, st) && InSync(st.streamReaders, b.trace[k], b.trace[|b.bds|])
  }

  ghost predicate SameFiles(a: ReaderState, b: ReaderState) {
    a.ph == b.ph && a.wholeFilesRead == b.wholeFilesRead
  }

  // ---------- Steps of the reader ----------

  lemma {:induction false} NextIndexBlockIsRead(z: Compression, index: Bytes, b: Blocks, l: Layout, k: nat, st: ReaderState)
      returns (st': ReaderState)
    requires Invertible(z) && CompressesIndexBlocks(z) && AtBlock(z, index, b, l, k, st)
    requires st.nextBlockIdx == |st.blockHeaders| && st.nextIndexBlockIdx < |l.groups|
    ensures IndexBlockAfter(z, st) == Ok((true, st')) && AtBlock(z, index, b, l, k, st') && st'.nextBlockIdx < |st'.blockHeaders|
    ensures st'.nextIndexBlockIdx == st.nextIndexBlockIdx + 1 && SameFiles(st, st')
  {
    var g := st.nextIndexBlockIdx;
    var group, ih, before, after, start, end := l.groups[g], l.ihs[g], l.before[g], l.before[g + 1], l.starts[g], l.starts[g + 1];
    assert IsGroup(z, index, b.bhs, group, ih, before, after, start, end);
    GroupIsRead(z, b, index, group, ih, before, after, start, end);
    TimeRangesCover(z, index, b.bhs, group, ih, before, after, start, end);
    IndexBlockIsEntered(z, st, ih, group, Reader(index, |after|));
    st' := Entered(st, group, Reader(index, |after|));
  }

  function Entered(st: ReaderState, group: seq<BlockHeader>, r: Reader): ReaderState {
    st.(indexReader := r, blockHeaders := group, nextIndexBlockIdx := st.nextIndexBlockIdx + 1, nextBlockIdx := 0)
  }

  lemma {:induction false} IndexBlockIsEntered(z: Compression, st: ReaderState, ih: IndexBlockHeader, group: seq<BlockHeader>, r: Reader)
    requires st.nextIndexBlockIdx < |st.indexBlockHeaders| && st.indexBlockHeaders[st.nextIndexBlockIdx] == ih
    requires st.ph.minTimestamp <= ih.minTimestamp && ih.maxTimestamp <= st.ph.maxTimestamp
    requires ReadIndexBlock(z, ih, st.indexReader) == Ok((group, r))
    ensures IndexBlockAfter(z, st) == Ok((true, Entered(st, group, r)))
  {
  }

  /** The next header is that of the k-th block, and it is in the time range of its index block. */
  lemma {:induction false} NextHeaderIs(z: Compression, index: Bytes, bhs: seq<BlockHeader>, l: Layout, k: nat, st: ReaderState)
    requires IsLayout(z, index, bhs, l) && AtIndex(index, l, k, st) && st.nextBlockIdx < |st.blockHeaders|
    ensures 0 < st.nextIndexBlockIdx <= |st.indexBlockHeaders| && k < |bhs| && st.blockHeaders[st.nextBlockIdx] == bhs[k]
    ensures var ih := st.indexBlockHeaders[st.nextIndexBlockIdx - 1];
            ih.minTimestamp <= bhs[k].timestampsHeader.minTimestamp && bhs[k].timestampsHeader.maxTimestamp <= ih.maxTimestamp
  {
    var g := st.nextIndexBlockIdx - 1;
    assert IsGroup(z, index, bhs, l.groups[g], l.ihs[g], l.before[g], l.before[g + 1], l.starts[g], l.starts[g + 1]);
    TimeRangesCover(z, index, bhs, l.groups[g], l.ihs[g], l.before[g], l.before[g + 1], l.starts[g], l.starts[g + 1]);
    assert l.groups[g][st.nextBlockIdx] == bhs[l.starts[g] + st.nextBlockIdx];
  }

  lemma {:induction false} BlockIsRecovered(z: Compression, b: Blocks, k: nat, sr: StreamReaders) returns (sr': StreamReaders)
    requires AreBlocks(z, b) && k < |b.bds| && InSync(sr, b.trace[k], b.trace[|b.bds|])
    ensures ReadBlock(sr, b.bhs[k]) == Ok((b.bds[k], sr')) && InSync(sr', b.trace[k + 1], b.trace[|b.bds|])
  {
    assert IsStep(z, b, k);
    TraceGrows(z, b, k + 1, |b.bds|);
    assert ReadsAs(sr, b.bhs[k], b.bds[k], b.trace[k + 1], b.trace[|b.bds|]);
    sr' := ReadBlock(sr, b.bhs[k]).value.1;
  }

  lemma {:induction false} BlockIsCounted(bhs: seq<BlockHeader>, k: nat, st: ReaderState, sr: StreamReaders)
    requires k < |bhs| && AtTotals(bhs, k, st) && IsHeaderOfPart(st.ph, bhs)
    ensures AtTotals(bhs, k + 1, CountBlock(st, bhs[k], sr)) && WithinTotals(CountBlock(st, bhs[k], sr))
  {
    TotalsAscend(bhs, k + 1, |bhs|);
  }

  lemma {:induction false} NextBlockIsRead(z: Compression, index: Bytes, b: Blocks, l: Layout, k: nat, st: ReaderState)
      returns (st': ReaderState)
    requires AtBlock(z, index, b, l, k, st) && st.nextBlockIdx < |st.blockHeaders|
    ensures k < |b.bds| && ReadNext(st) == Ok((b.bds[k], st')) && AtBlock(z, index, b, l, k + 1, st') && SameFiles(st, st')
  {
    NextHeaderIs(z, index, b.bhs, l, k, st);
    OrderAt(z, b, k);
    var sr' := BlockIsRecovered(z, b, k, st.streamReaders);
    st' := CountBlock(st, b.bhs[k], sr');
    BlockIsCounted(b.bhs, k, st, sr');
  }

  // ---------- The end of a part ----------

  /** The files hold what has been written, and the header holds their size. */
  ghost predicate IsFilesOf(part: Part, index: Bytes, sw: StreamWriters, st: ReaderState) {
    part.index == index && part.columnsHeaderIndex == sw.columnsHeaderIndex && part.columnsHeader == sw.columnsHeader &&
    part.timestamps == sw.timestamps && part.message == sw.message && part.shards == sw.shards &&
    st.ph.compressedSizeBytes == FilesSize(part) && st.wholeFilesRead == |part.columnNames| + |part.columnIdxs| + |part.metaindex|
  }

  lemma {:induction false} ShardsAreRead(readers: seq<BloomValuesReader>, shards: seq<BloomValues>)
    requires |readers| == |shards|
    requires forall i :: 0 <= i < |shards| ==> readers[i].bloom.bytesRead == |shards[i].bloom| && readers[i].values.bytesRead == |shards[i].values|
    ensures ShardsRead(readers) == ShardsSize(shards)
  {
    if readers != [] {
      ShardsAreRead(readers[..|readers| - 1], shards[..|shards| - 1]);
    }
  }

  /** When all blocks have been read, everything has been read, and the totals are those of the header. */
  lemma {:induction false} EndIsReached(z: Compression, part: Part, index: Bytes, b: Blocks, l: Layout, k: nat, st: ReaderState)
    requires AtBlock(z, index, b, l, k, st) && IsFilesOf(part, index, b.trace[|b.bds|], st)
    requires st.nextBlockIdx == |st.blockHeaders| && st.nextIndexBlockIdx == |l.groups|
    ensures k == |b.bds| && IndexBlockAfter(z, st) == Ok((false, st))
  {
    var sr, sw := st.streamReaders, b.trace[|b.bds|];
    forall i | 0 <= i < |sw.shards|
      ensures sr.shards[i].bloom.bytesRead == |sw.shards[i].bloom| && sr.shards[i].values.bytesRead == |sw.shards[i].values|
    {
      assert BothAt(sr.shards[i], ShardOrNone(sw.shards, i), sw.shards[i]);
    }
    ShardsAreRead(sr.shards, sw.shards);
  }

  /** The next block is the k-th one; after the last one the end is found, and nothing panics. */
  lemma {:induction false} NextBlockIs(z: Compression, part: Part, index: Bytes, b: Blocks, l: Layout, k: nat, st: ReaderState)
      returns (st': ReaderState)
    requires Invertible(z) && CompressesIndexBlocks(z) && AtBlock(z, index, b, l, k, st) && IsFilesOf(part, index, b.trace[|b.bds|], st)
    ensures k < |b.bds| ==> BlockAfter(z, st) == Ok((Some(b.bds[k]), st')) && AtBlock(z, index, b, l, k + 1, st') && SameFiles(st, st')
    ensures k == |b.bds| ==> BlockAfter(z, st) == Ok((None, st'))
    decreases |l.groups| - st.nextIndexBlockIdx
  {
    if st.nextBlockIdx < |st.blockHeaders| {
      st' := NextBlockIsRead(z, index, b, l, k, st);
    } else if st.nextIndexBlockIdx < |l.groups| {
      var st1 := NextIndexBlockIsRead(z, index, b, l, k, st);
      st' := NextBlockIsRead(z, index, b, l, k, st1);
    } else {
      EndIsReached(z, part, index, b, l, k, st);
      st' := st;
    }
  }

  // ---------- Opening a part ----------

  lemma {:induction false} NewReadersAtStart(shards: seq<BloomValues>, start: seq<BloomValues>)
    requires start == []
    ensures ShardsAt(NewReaders(shards), start, shards)
  {
  }

  lemma {:induction false} OpenedInSync(part: Part, sw: StreamWriters, maxShards: nat, names: seq<Bytes>, idxs: map<Bytes, nat>)
    requires ValidWriters(sw) && Grows(NoFiles(maxShards), sw) && names == sw.generator.columnNames
    requires part.columnsHeaderIndex == sw.columnsHeaderIndex && part.columnsHeader == sw.columnsHeader && part.timestamps == sw.timestamps
    requires part.message == sw.message && part.shards == sw.shards
    requires ShardsByName(idxs, sw.columnIdxs.Keys, sw.generator.columnNames, sw.columnIdxs)
    ensures InSync(StreamReaders(NewReader(part.columnsHeaderIndex), NewReader(part.columnsHeader), NewReader(part.timestamps),
                                 BloomValuesReader(NewReader(part.message.bloom), NewReader(part.message.values)),
                                 NewReaders(part.shards), idxs, names), NoFiles(maxShards), sw)
  {
    NewReadersAtStart(part.shards, []);
  }

  lemma {:induction false} RowsOfBlocks(z: Compression, b: Blocks, k: nat)
    requires AreBlocks(z, b) && k <= |b.bhs|
    ensures k <= RowsTo(b.bhs, k)
  {
    if k > 0 {
      RowsOfBlocks(z, b, k - 1);
      assert IsStep(z, b, k - 1);
    }
  }

  lemma {:induction false} TimesAreOrdered(z: Compression, b: Blocks)
    requires AreBlocks(z, b)
    ensures MinTimestamp(b.bhs) <= MaxTimestamp(b.bhs)
  {
    if b.bhs != [] {
      assert IsStep(z, b, 0);
      TimeRangeCovers(b.bhs);
    }
  }

  /** A finished part is opened without a panic; the reader is before the first block. */
  lemma {:induction false} PartIsOpened(z: Compression, part: Part, b: Blocks, groups: seq<seq<BlockHeader>>, ids: seq<nat>)
      returns (l: Layout, st: ReaderState)
    requires Invertible(z) && IsPart(z, part, b, groups, ids)
    ensures OpenPart(z, part) == Ok(st) && AtBlock(z, part.index, b, l, 0, st) && IsFilesOf(part, part.index, b.trace[|b.bds|], st)
  {
    var sw := b.trace[|b.bds|];
    l := LayoutOf(z, groups);
    HeadersAscend(z, part.index, b, l);
    HeadersAreValid(z, b, part.index, l);
    IndexBlockHeadersRoundTrip(l.ihs);
    var names, idxs := NamesAreRead(z, part, sw, ids);
    TimesAreOrdered(z, b);
    RowsOfBlocks(z, b, |b.bhs|);
    TraceGrows(z, b, 0, |b.bds|);
    OpenedInSync(part, sw, b.trace[0].maxShards, names, idxs);
    st := Opened(part, names, idxs, l.ihs);
    ChecksPass(z, part, names, idxs, l.ihs);
    StartsAtFirstBlock(z, part, b, l, st);
  }

  function Opened(part: Part, columnNames: seq<Bytes>, columnIdxs: map<Bytes, nat>, ihs: seq<IndexBlockHeader>): ReaderState {
    ReaderState(part.ph,
                StreamReaders(NewReader(part.columnsHeaderIndex), NewReader(part.columnsHeader), NewReader(part.timestamps),
                              BloomValuesReader(NewReader(part.message.bloom), NewReader(part.message.values)),
                              NewReaders(part.shards), columnIdxs, columnNames),
                NewReader(part.index), |part.columnNames| + |part.columnIdxs| + |part.metaindex|,
                ihs, [], 0, 0, 0, 0, 0, 0, 0)
  }

  lemma {:induction false} ChecksPass(z: Compression, part: Part, names: seq<Bytes>, idxs: map<Bytes, nat>, ihs: seq<IndexBlockHeader>)
    requires part.ph.formatVersion <= PART_FORMAT_LATEST_VERSION && part.ph.minTimestamp <= part.ph.maxTimestamp
    requires part.ph.blocksCount <= part.ph.rowsCount && part.ph.bloomValuesShardsCount == |part.shards|
    requires ReadColumnNames(z, part.columnNames) == Ok(names) && ReadColumnIdxs(part.columnIdxs, names, |part.shards|) == Ok(idxs)
    requires Invertible(z) && part.metaindex == z.compress(MarshalIndexBlockHeaders(ihs), 1)
    requires UnmarshalIndexBlockHeaders(MarshalIndexBlockHeaders(ihs)) == Ok(ihs)
    ensures OpenPart(z, part) == Ok(Opened(part, names, idxs, ihs))
  {
  }

  lemma {:induction false} StartsAtFirstBlock(z: Compression, part: Part, b: Blocks, l: Layout, st: ReaderState)
    requires AreBlocks(z, b) && IsLayout(z, part.index, b.bhs, l) && IsHeaderOfPart(st.ph, b.bhs) && st.indexBlockHeaders == l.ihs
    requires st.indexReader == NewReader(part.index) && st.blockHeaders == [] && st.nextIndexBlockIdx == 0 && st.nextBlockIdx == 0
    requires st.uncompressedSizeBytes == 0 && st.rowsCount == 0 && st.blocksCount == 0 && st.sidLast == 0 && st.minTimestampLast == 0
    requires InSync(st.streamReaders, b.trace[0], b.trace[|b.bds|])
    ensures AtBlock(z, part.index, b, l, 0, st)
  {
  }

  lemma {:induction false} NamesAreRead(z: Compression, part: Part, sw: StreamWriters, ids: seq<nat>) returns (names: seq<Bytes>, idxs: map<Bytes, nat>)
    requires Invertible(z) && HoldsStreams(z, part, sw, ids)
    ensures ReadColumnNames(z, part.columnNames) == Ok(names) && names == sw.generator.columnNames
    ensures ReadColumnIdxs(part.columnIdxs, names, |part.shards|) == Ok(idxs)
    ensures ShardsByName(idxs, sw.columnIdxs.Keys, names, sw.columnIdxs)
  {
    ColumnNamesRoundTrip(z, sw.generator);
    names := sw.generator.columnNames;
    NamesAreDistinct(sw.generator);
    ColumnIdxsRoundTrip(part.columnIdxs, ids, sw.columnIdxs, names, |part.shards|);
    idxs := ReadColumnIdxs(part.columnIdxs, names, |part.shards|).value;
  }

  // ---------- The reader ----------

  class BlockStreamReader {
    const z: Compression
    var ph: PartHeader
    var streamReaders: StreamReaders
    var indexReader: Reader
    var wholeFilesRead: nat
    var indexBlockHeaders: seq<IndexBlockHeader>
    var blockHeaders: seq<BlockHeader>
    var nextIndexBlockIdx: nat
    var nextBlockIdx: nat
    var globalUncompressedSizeBytes: nat
    var globalRowsCount: nat
    var globalBlocksCount: nat
    var sidLast: StreamID
    var minTimestampLast: Int64
    var blockData: Option<BlockData>

    function State(): ReaderState
      reads this
    {
      ReaderState(ph, streamReaders, indexReader, wholeFilesRead, indexBlockHeaders, blockHeaders, nextIndexBlockIdx, nextBlockIdx,
                  globalUncompressedSizeBytes, globalRowsCount, globalBlocksCount, sidLast, minTimestampLast)
    }

    /** Before the first block of an opened part. */
    constructor (z: Compression, st: ReaderState)
      requires st.blockHeaders == [] && st.nextIndexBlockIdx == 0 && st.nextBlockIdx == 0 && st.uncompressedSizeBytes == 0 &&
               st.rowsCount == 0 && st.blocksCount == 0 && st.sidLast == 0 && st.minTimestampLast == 0
      ensures this.z == z && State() == st
    {
      this.z := z;
      ph, streamReaders, indexReader, wholeFilesRead := st.ph, st.streamReaders, st.indexReader, st.wholeFilesRead;
      indexBlockHeaders, blockHeaders, nextIndexBlockIdx, nextBlockIdx := st.indexBlockHeaders, [], 0, 0;
      globalUncompressedSizeBytes, globalRowsCount, globalBlocksCount := 0, 0, 0;
      sidLast, minTimestampLast, blockData := 0, 0, None;
    }

    /** Whether there is another block, which is in blockData then; a panic is an error. */
    method NextBlock() returns (r: Result<bool>)
      modifies this
      ensures match BlockAfter(z, old(State()))
              case Err => r == Err
              case Ok((None, st)) => r == Ok(false) && State() == st
              case Ok((bd, st)) => r == Ok(true) && State() == st && blockData == bd
    {
      while nextBlockIdx >= |blockHeaders|
        invariant BlockAfter(z, State()) == BlockAfter(z, old(State()))
        decreases |indexBlockHeaders| - nextIndexBlockIdx
      {
        var more := NextIndexBlock();
        if more.Err? || !more.value {
          return more;
        }
      }
      r := ReadNextBlock();
    }

    /** Reads the next block of the current index block. */
    method ReadNextBlock() returns (r: Result<bool>)
      requires nextBlockIdx < |blockHeaders|
      modifies this`blockData, this`streamReaders, this`minTimestampLast, this`sidLast, this`globalUncompressedSizeBytes,
               this`globalRowsCount, this`globalBlocksCount, this`nextBlockIdx
      ensures match ReadNext(old(State()))
              case Err => r == Err
              case Ok((bd, st)) => r == Ok(true) && State() == st && blockData == Some(bd)
    {
      if !ExpectsNext(State()) {
        return Err;
      }
      r := ReadExpectedBlock(blockHeaders[nextBlockIdx]);
    }

    /** Takes a block that has been read. */
    method TakeBlock(bh: BlockHeader, bd: BlockData, sr: StreamReaders)
      modifies this`blockData, this`streamReaders, this`minTimestampLast, this`sidLast, this`globalUncompressedSizeBytes,
               this`globalRowsCount, this`globalBlocksCount, this`nextBlockIdx
      ensures State() == CountBlock(old(State()), bh, sr) && blockData == Some(bd)
    {
      blockData := Some(bd);
      streamReaders := sr;
      minTimestampLast, sidLast := bh.timestampsHeader.minTimestamp, bh.streamID;
      globalUncompressedSizeBytes := globalUncompressedSizeBytes + bh.uncompressedSizeBytes;
      globalRowsCount := globalRowsCount + bh.rowsCount;
      globalBlocksCount := globalBlocksCount + 1;
      nextBlockIdx := nextBlockIdx + 1;
    }

    method ReadExpectedBlock(bh: BlockHeader) returns (r: Result<bool>)
      modifies this`blockData, this`streamReaders, this`minTimestampLast, this`sidLast, this`globalUncompressedSizeBytes,
               this`globalRowsCount, this`globalBlocksCount, this`nextBlockIdx
      ensures match ReadExpected(old(State()), bh)
              case Err => r == Err
              case Ok((bd, st)) => r == Ok(true) && State() == st && blockData == Some(bd)
    {
      var read := ReadBlock(streamReaders, bh);
      if read.Err? {
        return Err;
      }
      TakeBlock(bh, read.value.0, read.value.1);
      if !WithinTotals(State()) {
        return Err;
      }
      return Ok(true);
    }

    method NextIndexBlock() returns (r: Result<bool>)
      modifies this`indexReader, this`blockHeaders, this`nextIndexBlockIdx, this`nextBlockIdx
      ensures match IndexBlockAfter(z, old(State()))
              case Err => r == Err
              case Ok((more, st)) => r == Ok(more) && State() == st
    {
      if nextIndexBlockIdx >= |indexBlockHeaders| {
        if !AllIsRead(State()) {
          return Err;
        }
        return Ok(false);
      }
      var ih := indexBlockHeaders[nextIndexBlockIdx];
      if ih.minTimestamp < ph.minTimestamp || ih.maxTimestamp > ph.maxTimestamp {
        return Err;
      }
      var block := ReadIndexBlock(z, ih, indexReader);
      if block.Err? {
        return Err;
      }
      blockHeaders, indexReader := block.value.0, block.value.1;
      nextIndexBlockIdx := nextIndexBlockIdx + 1;
      nextBlockIdx := 0;
      return Ok(true);
    }
  }

  /** What is known of a reader of the blocks b that has read k of them. */
  ghost predicate HasRead(reader: BlockStreamReader, z: Compression, part: Part, b: Blocks, l: Layout, k: nat)
    reads reader
  {
    reader.z == z && |b.trace| == |b.bds| + 1 && AtBlock(z, part.index, b, l, k, reader.State()) &&
    IsFilesOf(part, part.index, b.trace[|b.bds|], reader.State())
  }

  method ReadOne(reader: BlockStreamReader, z: Compression, ghost part: Part, ghost b: Blocks, ghost l: Layout, ghost k: nat)
      returns (bd: Option<BlockData>)
    requires Invertible(z) && CompressesIndexBlocks(z) && HasRead(reader, z, part, b, l, k)
    modifies reader
    ensures k < |b.bds| ==> bd == Some(b.bds[k]) && HasRead(reader, z, part, b, l, k + 1)
    ensures k >= |b.bds| ==> bd == None && k == |b.bds|
  {
    ghost var st' := NextBlockIs(z, part, part.index, b, l, k, reader.State());
    var r := reader.NextBlock();
    assert r.Ok?;
    bd := if r.value then reader.blockData else None;
  }

  method ReadBlocks(reader: BlockStreamReader, z: Compression, ghost part: Part, ghost b: Blocks, ghost l: Layout) returns (bds: seq<BlockData>)
    requires Invertible(z) && CompressesIndexBlocks(z) && HasRead(reader, z, part, b, l, 0)
    modifies reader
    ensures bds == b.bds
  {
    bds := [];
    var bd := ReadOne(reader, z, part, b, l, 0);
    while bd.Some?
      invariant bds <= b.bds
      invariant bd.Some? ==> |bds| < |b.bds| && bd.value == b.bds[|bds|] && HasRead(reader, z, part, b, l, |bds| + 1)
      invariant bd.None? ==> |bds| == |b.bds|
      decreases |b.bds| - |bds|
    {
      PrefixGrows(bds, b.bds);
      bds := bds + [bd.value];
      bd := ReadOne(reader, z, part, b, l, |bds|);
    }
  }

  lemma {:induction false} PrefixGrows<T>(xs: seq<T>, all: seq<T>)
    requires xs <= all && |xs| < |all|
    ensures xs + [all[|xs|]] <= all
  {
  }

  method NewBlockStreamReader(z: Compression, part: Part) returns (reader: BlockStreamReader)
    requires OpenPart(z, part).Ok?
    ensures fresh(reader) && reader.z == z && reader.State() == OpenPart(z, part).value
  {
    reader := new BlockStreamReader(z, OpenPart(z, part).value);
  }

  /** Reading a finished part yields its blocks in order, and never panics. */
  method ReadPart(z: Compression, part: Part, ghost b: Blocks, ghost groups: seq<seq<BlockHeader>>, ghost ids: seq<nat>) returns (bds: seq<BlockData>)
    requires Invertible(z) && CompressesIndexBlocks(z) && IsPart(z, part, b, groups, ids)
    ensures bds == b.bds
  {
    ghost var l, st := PartIsOpened(z, part, b, groups, ids);
    var reader := NewBlockStreamReader(z, part);
    bds := ReadBlocks(reader, z, part, b, l);
  }
}
