/** What a part that is read to its end without a panic holds, whatever its bytes are. */
module PartChecks {
  import opened StringsBlock
  import opened PartHeaders
  import opened PartFiles
  import opened PartStreams
  import opened PartReaders

  // ---------- Headers ----------

  lemma {:induction false} PlacesAreLimited(src: Bytes)
    ensures ReadPlaces(src).Ok? ==> ReadPlaces(src).value.0.3 <= 0x80_0000
  {
  }

  /** A block header that is read promises no more rows and bytes than a block may have. */
  lemma {:induction false} HeaderIsLimited(src: Bytes, bh: BlockHeader, tail: Bytes)
    requires ReadBlockHeader(src) == Ok((bh, tail))
    ensures bh.rowsCount <= 0x80_0000 && bh.columnsHeaderSize <= 0x80_0000
  {
    var src1 := ReadFixed(src, STREAM_ID_SIZE).value.1;
    var src2 := ReadVar(src1).value.1;
    var src3 := ReadVar(src2).value.1;
    PlacesAreLimited(ReadTimestampsHeader(src3).value.1);
  }

  lemma {:induction false} HeadersAreLimited(src: Bytes)
    requires ReadBlockHeaders(src).Ok?
    ensures forall i :: 0 <= i < |ReadBlockHeaders(src).value| ==>
              ReadBlockHeaders(src).value[i].rowsCount <= 0x80_0000 && ReadBlockHeaders(src).value[i].columnsHeaderSize <= 0x80_0000
    decreases |src|
  {
    if src != [] {
      var (bh, tail) := ReadBlockHeader(src).value;
      HeaderIsLimited(src, bh, tail);
      HeadersAreLimited(ReadBlockHeader(src).value.1);
    }
  }

  /** The headers of any index block that can be read are limited, and ordered by stream and time. */
  lemma {:induction false} HeadersAreChecked(src: Bytes, bhs: seq<BlockHeader>, i: nat, j: nat)
    requires UnmarshalBlockHeaders(src) == Ok(bhs) && i <= j < |bhs|
    ensures bhs[i].rowsCount <= 0x80_0000 && bhs[i].columnsHeaderSize <= 0x80_0000 && bhs[i].streamID <= bhs[j].streamID
    ensures bhs[i].streamID == bhs[j].streamID ==> bhs[i].timestampsHeader.minTimestamp <= bhs[j].timestampsHeader.minTimestamp
    decreases j - i
  {
    HeadersAreLimited(src);
    if i < j {
      HeadersAreChecked(src, bhs, i, j - 1);
      assert InOrder(bhs[j - 1], bhs[j]);
    }
  }

  /** No block that can be read has more than 2000 columns. */
  lemma {:induction false} ColumnsAreLimited(src: Bytes, chs: seq<ColumnHeader>, values: seq<Bytes>)
    requires UnmarshalColumnsHeader(src) == Ok((chs, values))
    ensures |chs| + |values| <= 2000
  {
    var (n, src1) := ReadVar(src).value;
    var src2 := ReadColumnHeaders(src1, n).value.1;
    var (m, src3) := ReadVar(src2).value;
    assert |ReadBytesList(src3, m).value.0| == m;
  }

  // ---------- Blocks ----------

  ghost function SizeOf(bds: seq<BlockData>): nat {
    if bds == [] then 0 else SizeOf(bds[..|bds| - 1]) + bds[|bds| - 1].uncompressedSizeBytes
  }

  ghost function RowsOf(bds: seq<BlockData>): nat {
    if bds == [] then 0 else RowsOf(bds[..|bds| - 1]) + bds[|bds| - 1].rowsCount
  }

  /** The stream and the first timestamp of the last block. */
  ghost function LastKey(bds: seq<BlockData>): (StreamID, Int64) {
    if bds == [] then (0, 0) else (bds[|bds| - 1].streamID, bds[|bds| - 1].timestampsData.minTimestamp)
  }

  ghost predicate NotBefore(key: (StreamID, Int64), bd: BlockData) {
    key.0 < bd.streamID || (key.0 == bd.streamID && key.1 <= bd.timestampsData.minTimestamp)
  }

  /** The blocks are ordered by stream and time, and in the time range of the part. */
  ghost predicate AreInPart(ph: PartHeader, bds: seq<BlockData>) {
    forall i :: 0 <= i < |bds| ==> IsNext(ph, bds[..i], bds[i])
  }

  ghost predicate IsNext(ph: PartHeader, before: seq<BlockData>, bd: BlockData) {
    NotBefore(LastKey(before), bd) && ph.minTimestamp <= bd.timestampsData.minTimestamp && bd.timestampsData.maxTimestamp <= ph.maxTimestamp
  }

  /** The header of the part tells what the blocks add up to. */
  ghost predicate IsConsistent(ph: PartHeader, bds: seq<BlockData>) {
    AreInPart(ph, bds) && ph.blocksCount == |bds| && ph.rowsCount == RowsOf(bds) && ph.uncompressedSizeBytes == SizeOf(bds)
  }

  /** The reader has checked what it has read. */
  ghost predicate HasChecked(ph: PartHeader, st: ReaderState, bds: seq<BlockData>) {
    && st.ph == ph && AreInPart(ph, bds) && IndexIsChecked(st)
    && st.uncompressedSizeBytes == SizeOf(bds) && st.rowsCount == RowsOf(bds) && st.blocksCount == |bds|
    && (st.sidLast, st.minTimestampLast) == LastKey(bds)
  }

  /** The current index block is in the time range of the part. */
  ghost predicate IndexIsChecked(st: ReaderState) {
    0 < st.nextIndexBlockIdx <= |st.indexBlockHeaders| ==>
      var ih := st.indexBlockHeaders[st.nextIndexBlockIdx - 1];
      st.ph.minTimestamp <= ih.minTimestamp && ih.maxTimestamp <= st.ph.maxTimestamp
  }

  lemma {:induction false} OneMoreBlock(ph: PartHeader, bds: seq<BlockData>, bd: BlockData)
    requires AreInPart(ph, bds) && IsNext(ph, bds, bd)
    ensures AreInPart(ph, bds + [bd]) && LastKey(bds + [bd]) == (bd.streamID, bd.timestampsData.minTimestamp)
    ensures SizeOf(bds + [bd]) == SizeOf(bds) + bd.uncompressedSizeBytes && RowsOf(bds + [bd]) == RowsOf(bds) + bd.rowsCount
  {
    var all := bds + [bd];
    assert all[..|bds|] == bds;
    forall i | 0 <= i < |all| ensures IsNext(ph, all[..i], all[i]) {
      assert i < |bds| ==> all[..i] == bds[..i];
    }
  }

  /** Data that is read is the data at the recorded place; the file has been read up to there. */
  lemma {:induction false} DataIsAtItsPlace(r: Reader, offset: nat, size: nat, data: Bytes, r': Reader)
    requires ReadAt(r, offset, size) == Ok((data, r'))
    ensures offset + size <= |r.data| && data == r.data[offset..offset + size] && size <= 0x80_0000
    ensures offset == r.bytesRead && r' == Reader(r.data, offset + size)
  {
  }

  /** What ReadBlock takes from the header of the block. */
  lemma {:induction false} BlockIsOfHeader(sr: StreamReaders, bh: BlockHeader, bd: BlockData, sr': StreamReaders)
    requires ReadBlock(sr, bh) == Ok((bd, sr'))
    ensures bd.streamID == bh.streamID && bd.uncompressedSizeBytes == bh.uncompressedSizeBytes && bd.rowsCount == bh.rowsCount
    ensures bd.timestampsData.minTimestamp == bh.timestampsHeader.minTimestamp
    ensures bd.timestampsData.maxTimestamp == bh.timestampsHeader.maxTimestamp
  {
  }

  lemma {:induction false} ExpectedIsRead(st: ReaderState, bh: BlockHeader, bd: BlockData, st': ReaderState)
    requires ReadExpected(st, bh) == Ok((bd, st'))
    ensures ReadBlock(st.streamReaders, bh) == Ok((bd, st'.streamReaders))
    ensures st' == CountBlock(st, bh, st'.streamReaders) && WithinTotals(st')
  {
  }

  /** What reading a block checks and counts. */
  ghost predicate IsCountedNext(st: ReaderState, bd: BlockData, st': ReaderState) {
    && NotBefore((st.sidLast, st.minTimestampLast), bd)
    && st.ph.minTimestamp <= bd.timestampsData.minTimestamp && bd.timestampsData.maxTimestamp <= st.ph.maxTimestamp
    && st'.ph == st.ph && IndexIsChecked(st') && st'.blocksCount == st.blocksCount + 1 <= st.ph.blocksCount
    && st'.uncompressedSizeBytes == st.uncompressedSizeBytes + bd.uncompressedSizeBytes && st'.rowsCount == st.rowsCount + bd.rowsCount
    && (st'.sidLast, st'.minTimestampLast) == (bd.streamID, bd.timestampsData.minTimestamp)
  }

  lemma {:induction false} CountedNext(st: ReaderState, ih: IndexBlockHeader, bh: BlockHeader, bd: BlockData, st': ReaderState)
    requires IndexIsChecked(st) && 0 < st.nextIndexBlockIdx <= |st.indexBlockHeaders| && ih == st.indexBlockHeaders[st.nextIndexBlockIdx - 1]
    requires IsExpected(st, ih, bh) && st' == CountBlock(st, bh, st'.streamReaders) && WithinTotals(st')
    requires (bd.streamID, bd.uncompressedSizeBytes, bd.rowsCount) == (bh.streamID, bh.uncompressedSizeBytes, bh.rowsCount)
    requires bd.timestampsData.minTimestamp == bh.timestampsHeader.minTimestamp && bd.timestampsData.maxTimestamp == bh.timestampsHeader.maxTimestamp
    ensures IsCountedNext(st, bd, st')
  {
  }

  lemma {:induction false} NextIs(st: ReaderState, bd: BlockData, st': ReaderState)
    requires st.nextBlockIdx < |st.blockHeaders| && ReadNext(st) == Ok((bd, st')) && IndexIsChecked(st)
    ensures IsCountedNext(st, bd, st')
  {
    var bh := st.blockHeaders[st.nextBlockIdx];
    assert ExpectsNext(st);
    ExpectedIsRead(st, bh, bd, st');
    BlockIsOfHeader(st.streamReaders, bh, bd, st'.streamReaders);
    CountedNext(st, st.indexBlockHeaders[st.nextIndexBlockIdx - 1], bh, bd, st');
  }

  lemma {:induction false} NextIsChecked(ph: PartHeader, st: ReaderState, bds: seq<BlockData>, bd: BlockData, st': ReaderState)
    requires HasChecked(ph, st, bds) && st.nextBlockIdx < |st.blockHeaders| && ReadNext(st) == Ok((bd, st'))
    ensures HasChecked(ph, st', bds + [bd]) && |bds| + 1 <= ph.blocksCount
  {
    NextIs(st, bd, st');
    OneMoreBlock(ph, bds, bd);
  }

  /** What a call of NextBlock has come to. */
  ghost predicate IsChecked(ph: PartHeader, bds: seq<BlockData>, bd: Option<BlockData>, st: ReaderState) {
    if bd.None? then IsConsistent(ph, bds) && ph.compressedSizeBytes == TotalBytesRead(st)
    else HasChecked(ph, st, bds + [bd.value]) && |bds| + 1 <= ph.blocksCount
  }

  /** Every block that is read is checked against the blocks before it and the header of the part. */
  lemma {:induction false} BlockIsChecked(z: Compression, ph: PartHeader, st: ReaderState, bds: seq<BlockData>, bd: Option<BlockData>, st': ReaderState)
    requires HasChecked(ph, st, bds) && BlockAfter(z, st) == Ok((bd, st'))
    ensures IsChecked(ph, bds, bd, st')
    decreases |st.indexBlockHeaders| - st.nextIndexBlockIdx
  {
    if st.nextBlockIdx < |st.blockHeaders| {
      NextIsChecked(ph, st, bds, bd.value, st');
    } else if st.nextIndexBlockIdx < |st.indexBlockHeaders| {
      var st1 := IndexBlockAfter(z, st).value.1;
      IndexBlockIsChecked(z, ph, st, bds, st1);
      BlockIsChecked(z, ph, st1, bds, bd, st');
    }
  }

  lemma {:induction false} IndexBlockIsChecked(z: Compression, ph: PartHeader, st: ReaderState, bds: seq<BlockData>, st': ReaderState)
    requires HasChecked(ph, st, bds) && st.nextIndexBlockIdx < |st.indexBlockHeaders| && IndexBlockAfter(z, st) == Ok((true, st'))
    ensures HasChecked(ph, st', bds)
    ensures st'.indexBlockHeaders == st.indexBlockHeaders && st'.nextIndexBlockIdx == st.nextIndexBlockIdx + 1
  {
  }

  /** The blocks of any part, or an error where the storage panics. If it does not, the part is what its header
      says; the blocks of a part that has been written are those that PartReaders.ReadPart gives. */
  method ReadAnyPart(z: Compression, part: Part) returns (r: Result<seq<BlockData>>)
    ensures r.Ok? ==> IsConsistent(part.ph, r.value)
  {
    if OpenPart(z, part).Err? {
      return Err;
    }
    var reader := NewBlockStreamReader(z, part);
    var bds := [];
    while true
      invariant fresh(reader) && reader.z == z && HasChecked(part.ph, reader.State(), bds)
      decreases part.ph.blocksCount - |bds|
    {
      ghost var st := reader.State();
      var more := reader.NextBlock();
      if more.Err? {
        return Err;
      }
      BlockIsChecked(z, part.ph, st, bds, if more.value then reader.blockData else None, reader.State());
      if !more.value {
        return Ok(bds);
      }
      bds := bds + [reader.blockData.value];
    }
  }
}
