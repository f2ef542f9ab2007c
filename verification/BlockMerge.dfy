/** Merging sorted streams of packed blocks into one sorted stream of blocks. */
module BlockMerge {
  import opened LogEntries

  /** Tenant and stream hash as one number, ordered like the marshaled form; 0 is the zero value. */
  type StreamID = nat

  const MAX_UNCOMPRESSED_BLOCK_SIZE: nat := 2 * 1024 * 1024
  const MAX_ROWS_PER_BLOCK: nat := 8 * 1024 * 1024

  /** A packed block. An empty block is the reset state of a block buffer. */
  datatype BlockData = BlockData(streamID: StreamID, uncompressedSizeBytes: nat, rows: seq<Row>)

  const NO_BLOCK := BlockData(0, 0, [])

  // ---------- Blocks and their order ----------

  datatype Key = Key(streamID: StreamID, minTimestamp: int)

  /** The order of blocks inside a part. */
  predicate Leq(a: Key, b: Key) {
    a.streamID < b.streamID || (a.streamID == b.streamID && a.minTimestamp <= b.minTimestamp)
  }

  function KeyOf(bd: BlockData): Key {
    Key(bd.streamID, if bd.rows == [] then 0 else bd.rows[0].timestamp)
  }

  /** The recorded size is that of the rows, or more when the block has a column without values. */
  ghost predicate ValidBlock(bd: BlockData) {
    && bd.rows != []
    && SortedByTime(bd.rows)
    && RowsSize(bd.rows) <= bd.uncompressedSizeBytes < 2 * MAX_UNCOMPRESSED_BLOCK_SIZE
  }

  /** What every part is: valid blocks in the block order. */
  ghost predicate ValidBlocks(blocks: seq<BlockData>) {
    && (forall i :: 0 <= i < |blocks| ==> ValidBlock(blocks[i]))
    && forall i, j :: 0 <= i < j < |blocks| ==> Leq(KeyOf(blocks[i]), KeyOf(blocks[j]))
  }

  lemma {:induction false} TailIsValid(blocks: seq<BlockData>)
    requires ValidBlocks(blocks) && |blocks| > 1
    ensures ValidBlocks(blocks[1..]) && Leq(KeyOf(blocks[0]), KeyOf(blocks[1..][0]))
  {
  }

  /** Blocks of a stream that could be one block are not left side by side: the first of two neighbours has reached
      two mebibytes, or both together have reached four. */
  ghost predicate IsCompacted(blocks: seq<BlockData>) {
    forall i :: 0 < i < |blocks| ==> AreApart(blocks, i)
  }

  ghost predicate AreApart(blocks: seq<BlockData>, i: nat)
    requires 0 < i < |blocks|
  {
    blocks[i - 1].streamID == blocks[i].streamID ==>
      || blocks[i - 1].uncompressedSizeBytes >= 0x20_0000
      || blocks[i - 1].uncompressedSizeBytes + blocks[i].uncompressedSizeBytes >= 0x40_0000
  }

  lemma {:induction false} AppendedIsCompacted(blocks: seq<BlockData>, bd: BlockData)
    requires IsCompacted(blocks)
    requires blocks != [] ==> AreApart([blocks[|blocks| - 1], bd], 1)
    ensures IsCompacted(blocks + [bd])
  {
    forall i | 0 < i < |blocks + [bd]| ensures AreApart(blocks + [bd], i) {
      if i < |blocks| {
        assert AreApart(blocks, i);
      }
    }
  }

  /** Blocks of the stream, or of later ones, may follow: the last block is full, or one of an earlier stream. */
  ghost predicate IsClosed(blocks: seq<BlockData>, sid: StreamID) {
    IsCompacted(blocks) &&
    (blocks != [] ==> var last := blocks[|blocks| - 1];
                      last.streamID < sid || (last.streamID == sid && last.uncompressedSizeBytes >= 0x20_0000))
  }

  /** The block may be taken when nothing is pending: it is full and written, or kept for later ones. */
  ghost predicate MayFollow(blocks: seq<BlockData>, bd: BlockData) {
    IsClosed(if bd.uncompressedSizeBytes >= MAX_UNCOMPRESSED_BLOCK_SIZE then blocks + [bd] else blocks, bd.streamID)
  }

  lemma {:induction false} FullBlockCloses(blocks: seq<BlockData>, bd: BlockData)
    requires IsClosed(blocks, bd.streamID)
    ensures IsCompacted(blocks + [bd])
    ensures bd.uncompressedSizeBytes >= MAX_UNCOMPRESSED_BLOCK_SIZE ==> IsClosed(blocks + [bd], bd.streamID)
  {
    AppendedIsCompacted(blocks, bd);
  }

  lemma {:induction false} FullFlushCloses(blocks: seq<BlockData>, flushed: seq<BlockData>, sid: StreamID)
    requires IsClosed(blocks, sid) && |flushed| <= 1
    requires flushed != [] ==> flushed[0].streamID == sid
    ensures IsCompacted(blocks + flushed)
    ensures flushed == [] || flushed[0].uncompressedSizeBytes >= MAX_UNCOMPRESSED_BLOCK_SIZE ==> IsClosed(blocks + flushed, sid)
  {
    if flushed == [] {
      assert blocks + flushed == blocks;
    } else {
      assert flushed == [flushed[0]];
      FullBlockCloses(blocks, flushed[0]);
    }
  }

  /** A block may be flushed when the next one is of another stream or too big to join it. */
  lemma {:induction false} FlushedIsApart(blocks: seq<BlockData>, flushed: seq<BlockData>, sid: StreamID, bd: BlockData)
    requires IsClosed(blocks, sid) && |flushed| <= 1 && sid <= bd.streamID
    requires flushed != [] ==> flushed[0].streamID == sid
    requires flushed != [] && bd.streamID == sid ==>
               flushed[0].uncompressedSizeBytes + bd.uncompressedSizeBytes >= 2 * MAX_UNCOMPRESSED_BLOCK_SIZE
    requires bd.streamID == sid ==> bd.uncompressedSizeBytes >= MAX_UNCOMPRESSED_BLOCK_SIZE
    ensures MayFollow(blocks + flushed, bd)
  {
    FullFlushCloses(blocks, flushed, sid);
    if bd.uncompressedSizeBytes >= MAX_UNCOMPRESSED_BLOCK_SIZE {
      AppendedIsCompacted(blocks + flushed, bd);
    }
  }

  ghost predicate AtMostOneBlock(blocks: seq<BlockData>, sid: StreamID) {
    forall i, j :: 0 <= i < j < |blocks| ==> blocks[i].streamID != sid || blocks[j].streamID != sid
  }

  /** A stream of less than two mebibytes has no two blocks. */
  lemma {:induction false} SmallStreamIsOneBlock(blocks: seq<BlockData>, sid: StreamID)
    requires ValidBlocks(blocks) && IsCompacted(blocks) && BytesOf(blocks)[sid] < 0x20_0000
    ensures AtMostOneBlock(blocks, sid)
  {
    forall i, j | 0 <= i < j < |blocks| ensures blocks[i].streamID != sid || blocks[j].streamID != sid {
      if blocks[i].streamID == sid == blocks[j].streamID {
        assert Leq(KeyOf(blocks[i]), KeyOf(blocks[i + 1]));
        assert i + 1 < j ==> Leq(KeyOf(blocks[i + 1]), KeyOf(blocks[j]));
        assert AreApart(blocks, i + 1);
        BytesOfTwo(blocks, i);
      }
    }
  }

  // ---------- What the blocks hold ----------

  /** A row together with the stream it belongs to. */
  type StreamRow = (StreamID, Row)

  ghost function StreamRows(sid: StreamID, rows: seq<Row>): multiset<StreamRow> {
    if rows == [] then multiset{} else multiset{(sid, rows[0])} + StreamRows(sid, rows[1..])
  }

  ghost function Content(blocks: seq<BlockData>): multiset<StreamRow> {
    if blocks == [] then multiset{} else StreamRows(blocks[0].streamID, blocks[0].rows) + Content(blocks[1..])
  }

  ghost function ContentOfAll(readers: seq<seq<BlockData>>): multiset<StreamRow> {
    if readers == [] then multiset{} else Content(readers[0]) + ContentOfAll(readers[1..])
  }

  /** So many bytes of a stream. */
  ghost function Bytes(sid: StreamID, n: nat): multiset<StreamID> {
    multiset{}[sid := n]
  }

  /** How many bytes the blocks record for every stream. */
  ghost function BytesOf(blocks: seq<BlockData>): multiset<StreamID> {
    if blocks == [] then multiset{} else Bytes(blocks[0].streamID, blocks[0].uncompressedSizeBytes) + BytesOf(blocks[1..])
  }

  ghost function BytesOfAll(readers: seq<seq<BlockData>>): multiset<StreamID> {
    if readers == [] then multiset{} else BytesOf(readers[0]) + BytesOfAll(readers[1..])
  }

  lemma {:induction false} BytesAppend(blocks: seq<BlockData>, bd: BlockData)
    ensures BytesOf(blocks + [bd]) == BytesOf(blocks) + Bytes(bd.streamID, bd.uncompressedSizeBytes)
  {
    if blocks != [] {
      assert (blocks + [bd])[1..] == blocks[1..] + [bd];
      BytesAppend(blocks[1..], bd);
    }
  }

  lemma {:induction false} BytesGrow(rest: multiset<StreamID>, sid: StreamID, n: nat, pending: nat, more: nat)
    requires n <= pending + more
    ensures rest + Bytes(sid, n) <= rest + Bytes(sid, pending) + Bytes(sid, more)
  {
  }

  /** `taken` grows by no more than `next`, and `left` shrinks by it. */
  lemma {:induction false} NextBytesTaken(all: multiset<StreamID>, taken: multiset<StreamID>, left: multiset<StreamID>,
                                          next: multiset<StreamID>, taken': multiset<StreamID>, left': multiset<StreamID>)
    requires taken + left <= all && left == next + left' && taken' <= taken + next
    ensures taken' + left' <= all
  {
    assert taken + left == (taken + next) + left';
  }

  lemma {:induction false} BytesOfTwo(blocks: seq<BlockData>, i: nat)
    requires i + 1 < |blocks| && blocks[i].streamID == blocks[i + 1].streamID
    ensures BytesOf(blocks)[blocks[i].streamID] >= blocks[i].uncompressedSizeBytes + blocks[i + 1].uncompressedSizeBytes
  {
    if i > 0 {
      BytesOfTwo(blocks[1..], i - 1);
    } else {
      assert blocks[1..][1..] == blocks[2..];
    }
  }

  ghost function BlocksLeft(readers: seq<seq<BlockData>>): nat {
    if readers == [] then 0 else |readers[0]| + BlocksLeft(readers[1..])
  }

  /** b is a without some rows that have no fields; such rows do not exist for queries. */
  ghost predicate SameNonEmptyRows(a: multiset<StreamRow>, b: multiset<StreamRow>) {
    b <= a && forall x: StreamRow :: x.1.fields != [] ==> a[x] == b[x]
  }

  lemma {:induction false} StreamRowsCount(sid: StreamID, rows: seq<Row>, x: StreamRow)
    ensures StreamRows(sid, rows)[x] == if x.0 == sid then multiset(rows)[x.1] else 0
  {
    if rows != [] {
      assert rows == [rows[0]] + rows[1..];
      StreamRowsCount(sid, rows[1..], x);
    }
  }

  lemma {:induction false} MergedContent(content: multiset<StreamRow>, sid: StreamID, merged: seq<Row>, a: seq<Row>, b: seq<Row>)
    requires multiset(merged) == multiset(a) + multiset(b)
    ensures content + StreamRows(sid, merged) == content + StreamRows(sid, a) + StreamRows(sid, b)
  {
    StreamRowsOfMerged(sid, merged, a, b);
  }

  lemma {:induction false} StreamRowsOfMerged(sid: StreamID, merged: seq<Row>, a: seq<Row>, b: seq<Row>)
    requires multiset(merged) == multiset(a) + multiset(b)
    ensures StreamRows(sid, merged) == StreamRows(sid, a) + StreamRows(sid, b)
  {
    forall x: StreamRow ensures StreamRows(sid, merged)[x] == (StreamRows(sid, a) + StreamRows(sid, b))[x] {
      StreamRowsCount(sid, merged, x);
      StreamRowsCount(sid, a, x);
      StreamRowsCount(sid, b, x);
    }
  }

  lemma {:induction false} EmptyRowsMayGo(sid: StreamID, rows: seq<Row>, rest: multiset<StreamRow>)
    requires forall i :: 0 <= i < |rows| ==> rows[i].fields == []
    ensures SameNonEmptyRows(rest + StreamRows(sid, rows), rest)
  {
    forall x: StreamRow | x.1.fields != [] ensures StreamRows(sid, rows)[x] == 0 {
      StreamRowsCount(sid, rows, x);
    }
  }

  /** `taken` grows by `next`, losing no more than empty rows; `left` shrinks by `next`. */
  lemma {:induction false} NextTaken(all: multiset<StreamRow>, taken: multiset<StreamRow>, left: multiset<StreamRow>,
                  next: multiset<StreamRow>, taken': multiset<StreamRow>, left': multiset<StreamRow>)
    requires SameNonEmptyRows(all, taken + left) && left == next + left'
    requires SameNonEmptyRows(taken + next, taken')
    ensures SameNonEmptyRows(all, taken' + left')
  {
    assert taken + left == (taken + next) + left';
  }

  lemma {:induction false} MoreTaken(a: multiset<StreamRow>, b: multiset<StreamRow>, more: multiset<StreamRow>)
    requires SameNonEmptyRows(a, b)
    ensures SameNonEmptyRows(a + more, b + more)
  {
  }

  lemma {:induction false} ContentAppend(blocks: seq<BlockData>, bd: BlockData)
    ensures Content(blocks + [bd]) == Content(blocks) + StreamRows(bd.streamID, bd.rows)
  {
    if blocks != [] {
      assert (blocks + [bd])[1..] == blocks[1..] + [bd];
      ContentAppend(blocks[1..], bd);
    }
  }

  lemma {:induction false} ContentOfAllConcat(a: seq<seq<BlockData>>, b: seq<seq<BlockData>>)
    ensures ContentOfAll(a + b) == ContentOfAll(a) + ContentOfAll(b)
    ensures BytesOfAll(a + b) == BytesOfAll(a) + BytesOfAll(b)
    ensures BlocksLeft(a + b) == BlocksLeft(a) + BlocksLeft(b)
  {
    if a == [] {
      assert a + b == b;
    } else {
      assert (a + b)[1..] == a[1..] + b;
      ContentOfAllConcat(a[1..], b);
    }
  }

  lemma {:induction false} ContentOfAllMoved(x: seq<BlockData>, before: seq<seq<BlockData>>, after: seq<seq<BlockData>>)
    ensures ContentOfAll([x] + (before + after)) == ContentOfAll(before + ([x] + after))
    ensures BytesOfAll([x] + (before + after)) == BytesOfAll(before + ([x] + after))
    ensures BlocksLeft([x] + (before + after)) == BlocksLeft(before + ([x] + after))
  {
    ContentOfAllConcat([x], before + after);
    ContentOfAllConcat(before, after);
    ContentOfAllConcat(before, [x] + after);
    ContentOfAllConcat([x], after);
  }

  lemma {:induction false} ContentOfHead(heap: seq<seq<BlockData>>)
    requires heap != [] && heap[0] != []
    ensures ContentOfAll(heap) ==
            StreamRows(heap[0][0].streamID, heap[0][0].rows) + (Content(heap[0][1..]) + ContentOfAll(heap[1..]))
    ensures BytesOfAll(heap) ==
            Bytes(heap[0][0].streamID, heap[0][0].uncompressedSizeBytes) + (BytesOf(heap[0][1..]) + BytesOfAll(heap[1..]))
  {
  }

  // ---------- The writer ----------

  class BlockStreamWriter {
    var blocks: seq<BlockData>
    var sidLast: StreamID
    var minTimestampLast: int

    ghost predicate Valid()
      reads this
    {
      && ValidBlocks(blocks)
      && Key(sidLast, minTimestampLast) == (if blocks == [] then Key(0, 0) else KeyOf(blocks[|blocks| - 1]))
    }

    constructor ()
      ensures Valid() && blocks == []
    {
      blocks, sidLast, minTimestampLast := [], 0, 0;
    }

    /** Fails, where the writer would panic, on a block out of order. A fresh writer also takes
        a block of the zero stream with a negative first timestamp for one out of order. */
    method MustWriteBlockInternal(bd: BlockData) returns (ok: bool)
      requires Valid() && ValidBlock(bd)
      modifies this
      ensures Valid()
      ensures ok == Leq(old(Key(sidLast, minTimestampLast)), KeyOf(bd))
      ensures blocks == if ok then old(blocks) + [bd] else old(blocks)
      ensures Key(sidLast, minTimestampLast) == if ok then KeyOf(bd) else old(Key(sidLast, minTimestampLast))
    {
      if bd.streamID < sidLast {
        return false;
      }
      var isSeenSid := bd.streamID == sidLast;
      var minTimestamp := bd.rows[0].timestamp;
      if isSeenSid && minTimestamp < minTimestampLast {
        return false;
      }
      sidLast, minTimestampLast := bd.streamID, minTimestamp;
      blocks := blocks + [bd];
      return true;
    }

    method MustWriteBlockData(bd: BlockData) returns (ok: bool)
      requires Valid() && (bd.rows != [] ==> ValidBlock(bd))
      modifies this
      ensures Valid()
      ensures ok == (bd.rows != [] ==> Leq(old(Key(sidLast, minTimestampLast)), KeyOf(bd)))
      ensures blocks == if ok && bd.rows != [] then old(blocks) + [bd] else old(blocks)
      ensures Key(sidLast, minTimestampLast) ==
              if ok && bd.rows != [] then KeyOf(bd) else old(Key(sidLast, minTimestampLast))
    {
      ok := true;
      if |bd.rows| > 0 {
        ok := MustWriteBlockInternal(bd);
      }
    }

    method MustWriteRows(sid: StreamID, rows: seq<Row>) returns (ok: bool)
      requires Valid() && SortedByTime(rows) && RowsSize(rows) < 2 * MAX_UNCOMPRESSED_BLOCK_SIZE
      modifies this
      ensures Valid()
      ensures ok == (rows != [] ==> Leq(old(Key(sidLast, minTimestampLast)), Key(sid, rows[0].timestamp)))
      ensures blocks == if ok && rows != [] then old(blocks) + [BlockData(sid, RowsSize(rows), rows)] else old(blocks)
      ensures Key(sidLast, minTimestampLast) ==
              if ok && rows != [] then Key(sid, rows[0].timestamp) else old(Key(sidLast, minTimestampLast))
    {
      ok := MustWriteBlockData(BlockData(sid, RowsSize(rows), rows));
    }
  }

  // ---------- The merger ----------

  class BlockStreamMerger {
    const bsw: BlockStreamWriter
    var streamID: StreamID
    /** A pending block that is still packed ... */
    var bd: BlockData
    /** ... or pending rows, unpacked. */
    var rows: seq<Row>
    var uncompressedRowsSizeBytes: nat

    constructor (bsw: BlockStreamWriter)
      ensures this.bsw == bsw && streamID == 0 && bd == NO_BLOCK && rows == [] && uncompressedRowsSizeBytes == 0
    {
      this.bsw := bsw;
      streamID, bd, rows, uncompressedRowsSizeBytes := 0, NO_BLOCK, [], 0;
    }

    ghost function Pending(): seq<Row>
      reads this
    {
      if rows != [] then rows else bd.rows
    }

    ghost predicate ValidBeforeFlush()
      reads this, bsw
    {
      && bsw.Valid()
      && (rows != [] ==> bd == NO_BLOCK)
      && (bd.rows != [] ==> ValidBlock(bd) && bd.streamID == streamID)
      && (bd.rows == [] ==> bd == NO_BLOCK)
      && SortedByTime(rows)
      && uncompressedRowsSizeBytes == RowsSize(rows) < 2 * MAX_UNCOMPRESSED_BLOCK_SIZE
      && (Pending() != [] ==> Leq(LastWritten(), PendingKey()))
    }

    /** The state between two blocks. This is what keeps the consistency panics from firing. */
    ghost predicate Valid()
      reads this, bsw
    {
      && ValidBeforeFlush()
      && uncompressedRowsSizeBytes < MAX_UNCOMPRESSED_BLOCK_SIZE
      && bd.uncompressedSizeBytes < MAX_UNCOMPRESSED_BLOCK_SIZE
    }

    lemma {:induction false} BeforeLater(k: Key, later: Key)
      requires Before(k) && Leq(k, later)
      ensures Before(later)
    {
    }

    ghost function LastWritten(): Key
      reads bsw
    {
      Key(bsw.sidLast, bsw.minTimestampLast)
    }

    ghost function PendingKey(): Key
      requires Pending() != []
      reads this
    {
      Key(streamID, Pending()[0].timestamp)
    }

    /** Everything written or pending goes before k. */
    ghost predicate Before(k: Key)
      reads this, bsw
    {
      Leq(LastWritten(), k) && streamID <= k.streamID && (Pending() != [] ==> Leq(PendingKey(), k))
    }

    /** Everything the merger has taken so far. */
    ghost function Taken(): multiset<StreamRow>
      reads this, bsw
    {
      Content(bsw.blocks) + StreamRows(streamID, Pending())
    }

    /** The bytes that the written blocks record, and those that are pending. */
    ghost function TakenBytes(): multiset<StreamID>
      reads this, bsw
    {
      BytesOf(bsw.blocks) + Bytes(streamID, PendingBytes())
    }

    ghost function PendingBytes(): nat
      reads this
    {
      uncompressedRowsSizeBytes + bd.uncompressedSizeBytes
    }

    /** Nothing that belongs into one block has been written as two, and what is pending need not
        join what has been written. */
    ghost predicate Compacts()
      reads this, bsw
    {
      IsClosed(bsw.blocks, streamID)
    }

    method ResetRows()
      modifies this
      ensures streamID == old(streamID)
      ensures bd == NO_BLOCK && rows == [] && uncompressedRowsSizeBytes == 0
    {
      bd, rows, uncompressedRowsSizeBytes := NO_BLOCK, [], 0;
    }

    method HasNonEmptyRows() returns (found: bool)
      ensures found == exists i :: 0 <= i < |rows| && rows[i].fields != []
    {
      for i := 0 to |rows|
        invariant forall k :: 0 <= k < i ==> rows[k].fields == []
      {
        if |rows[i].fields| > 0 {
          return true;
        }
      }
      return false;
    }

    /** The block a flush writes, if any. */
    ghost function Flushed(): seq<BlockData>
      reads this
    {
      if rows == [] then (if bd.rows == [] then [] else [bd])
      else if forall i :: 0 <= i < |rows| ==> rows[i].fields == [] then []
      else [BlockData(streamID, RowsSize(rows), rows)]
    }

    method MustFlushRows() returns (ok: bool)
      requires ValidBeforeFlush()
      modifies this, bsw
      ensures ok && Valid() && Pending() == [] && streamID == old(streamID)
      ensures bsw.blocks == old(bsw.blocks + Flushed())
      ensures LastWritten() == if old(Flushed()) == [] then old(LastWritten()) else old(PendingKey())
      ensures SameNonEmptyRows(old(Taken()), Taken()) && TakenBytes() <= old(TakenBytes())
    {
      FlushKeepsRows();
      FlushKeepsBytes();
      ok := WritePending();
      ResetRows();
    }

    method WritePending() returns (ok: bool)
      requires ValidBeforeFlush()
      modifies bsw
      ensures ok && bsw.Valid() && bsw.blocks == old(bsw.blocks + Flushed())
      ensures LastWritten() == if old(Flushed()) == [] then old(LastWritten()) else old(PendingKey())
    {
      ok := true;
      if |rows| == 0 {
        ok := bsw.MustWriteBlockData(bd);
      } else {
        var found := HasNonEmptyRows();
        if found {
          ok := bsw.MustWriteRows(streamID, rows);
        }
      }
    }

    lemma {:induction false} FlushKeepsRows()
      requires ValidBeforeFlush()
      ensures SameNonEmptyRows(Taken(), Content(bsw.blocks + Flushed()))
    {
      if Flushed() == [] {
        assert bsw.blocks + Flushed() == bsw.blocks;
        EmptyRowsMayGo(streamID, rows, Content(bsw.blocks));
      } else {
        ContentAppend(bsw.blocks, Flushed()[0]);
      }
    }

    lemma {:induction false} FlushKeepsBytes()
      requires ValidBeforeFlush()
      ensures BytesOf(bsw.blocks + Flushed()) <= TakenBytes()
    {
      if Flushed() == [] {
        assert bsw.blocks + Flushed() == bsw.blocks;
      } else {
        BytesAppend(bsw.blocks, Flushed()[0]);
      }
    }

    lemma {:induction false} FlushedBlock()
      requires ValidBeforeFlush()
      ensures |Flushed()| <= 1
      ensures Flushed() != [] ==> Flushed()[0].streamID == streamID && Flushed()[0].uncompressedSizeBytes == PendingBytes()
    {
    }

    /** Takes a block when nothing is pending. */
    method MustWriteBlockData(bd: BlockData) returns (ok: bool)
      requires Valid() && Pending() == [] && ValidBlock(bd) && Before(KeyOf(bd)) && bd.streamID == streamID
      requires MayFollow(bsw.blocks, bd)
      modifies this, bsw
      ensures ok && Valid() && Before(KeyOf(bd)) && streamID == bd.streamID && Compacts()
      ensures Taken() == old(Content(bsw.blocks)) + StreamRows(bd.streamID, bd.rows)
      ensures TakenBytes() == old(BytesOf(bsw.blocks)) + Bytes(bd.streamID, bd.uncompressedSizeBytes)
      ensures bd.uncompressedSizeBytes >= 0x20_0000 ==> bsw.blocks == old(bsw.blocks) + [bd]
    {
      // nothing is pending
      assert bd.rows != [] && this.bd.rows == [] && rows == [] && uncompressedRowsSizeBytes == 0;
      if bd.uncompressedSizeBytes >= MAX_UNCOMPRESSED_BLOCK_SIZE {
        ghost var written := bsw.blocks;
        ok := bsw.MustWriteBlockData(bd);
        ContentAppend(written, bd);
        BytesAppend(written, bd);
        return;
      }
      this.bd := bd;
      return true;
    }

    method MustUnmarshalRows(bd: BlockData)
      requires bd.rows != [] ==> ValidBlock(bd)
      modifies this`rows, this`uncompressedRowsSizeBytes
      ensures rows == old(rows) + bd.rows
      ensures uncompressedRowsSizeBytes == old(uncompressedRowsSizeBytes) + RowsSize(bd.rows)
    {
      RowsSizePositive(bd.rows);
      assert |bd.rows| <= MAX_ROWS_PER_BLOCK;
      rows := rows + bd.rows;
      uncompressedRowsSizeBytes := uncompressedRowsSizeBytes + RowsSize(bd.rows);
    }
  
    method UnpackPending()
      requires Valid()
      modifies this
      ensures rows == old(Pending()) && bd == NO_BLOCK && streamID == old(streamID)
      ensures uncompressedRowsSizeBytes == RowsSize(rows) <= old(uncompressedRowsSizeBytes + bd.uncompressedSizeBytes)
    {
      if |bd.rows| > 0 {
        MustUnmarshalRows(bd);
        bd := NO_BLOCK;
      }
    }

    /** Adds the rows of bd to the pending rows, unpacking a pending block first. */
    method UnpackAndMerge(bd: BlockData)
      requires Valid() && ValidBlock(bd) && Before(KeyOf(bd)) && bd.streamID == streamID
      requires uncompressedRowsSizeBytes + this.bd.uncompressedSizeBytes + bd.uncompressedSizeBytes
               < 2 * MAX_UNCOMPRESSED_BLOCK_SIZE
      modifies this
      ensures ValidBeforeFlush() && Before(KeyOf(bd)) && streamID == old(streamID)
      ensures this.bd == NO_BLOCK && rows != []
      ensures Taken() == old(Taken()) + StreamRows(bd.streamID, bd.rows)
      ensures PendingBytes() == uncompressedRowsSizeBytes
      ensures TakenBytes() <= old(TakenBytes()) + Bytes(bd.streamID, bd.uncompressedSizeBytes)
    {
      ghost var pendingBytes := PendingBytes();
      ghost var pending := Pending();
      UnpackPending();
      var rowsLen := |rows|;
      MustUnmarshalRows(bd);
      assert rows[..rowsLen] == pending && rows[rowsLen..] == bd.rows;
      var merged := MergeRows(rows[..rowsLen], rows[rowsLen..]);
      MergedMinimum(merged, pending, bd.rows);
      MergedContent(Content(bsw.blocks), streamID, merged, pending, bd.rows);
      rows := merged;
      BytesGrow(BytesOf(bsw.blocks), streamID, PendingBytes(), pendingBytes, bd.uncompressedSizeBytes);
    }

    method MustMergeRows(bd: BlockData) returns (ok: bool)
      requires Valid() && Compacts() && ValidBlock(bd) && Before(KeyOf(bd)) && bd.streamID == streamID
      requires uncompressedRowsSizeBytes + this.bd.uncompressedSizeBytes + bd.uncompressedSizeBytes
               < 2 * MAX_UNCOMPRESSED_BLOCK_SIZE
      modifies this, bsw
      ensures ok && Valid() && Before(KeyOf(bd)) && streamID == old(streamID) && Compacts()
      ensures SameNonEmptyRows(old(Taken()) + StreamRows(bd.streamID, bd.rows), Taken())
      ensures TakenBytes() <= old(TakenBytes()) + Bytes(bd.streamID, bd.uncompressedSizeBytes)
    {
      UnpackAndMerge(bd);
      ok := true;
      if uncompressedRowsSizeBytes >= MAX_UNCOMPRESSED_BLOCK_SIZE {
        FlushedBlock();
        FullFlushCloses(bsw.blocks, Flushed(), streamID);
        ok := MustFlushRows();
      }
    }

    /** The panic conditions on the next block are false. */
    ghost predicate CheckNextBlock(bd: BlockData)
      reads this
    {
      && !(|rows| > 0 && |this.bd.rows| > 0)
      && !(bd.streamID < streamID)
      && (bd.streamID == streamID && |bd.rows| > 0 ==>
            if |rows| == 0 then |this.bd.rows| > 0 ==> KeyOf(bd).minTimestamp >= KeyOf(this.bd).minTimestamp
            else KeyOf(bd).minTimestamp >= rows[0].timestamp)
    }

    method MustWriteBlock(bd: BlockData) returns (ok: bool)
      requires Valid() && Compacts() && ValidBlock(bd) && Before(KeyOf(bd))
      modifies this, bsw
      ensures ok && Valid() && Compacts() && Before(KeyOf(bd)) && streamID == bd.streamID
      ensures SameNonEmptyRows(old(Taken()) + StreamRows(bd.streamID, bd.rows), Taken())
      ensures TakenBytes() <= old(TakenBytes()) + Bytes(bd.streamID, bd.uncompressedSizeBytes)
      ensures old(Pending()) == [] && bd.uncompressedSizeBytes >= 0x20_0000 ==> bsw.blocks == old(bsw.blocks) + [bd]
    {
      assert CheckNextBlock(bd);
      if bd.streamID != streamID {
        ok := FlushThenWrite(bd);
      } else if uncompressedRowsSizeBytes == 0 && |this.bd.rows| == 0
                && bd.uncompressedSizeBytes >= MAX_UNCOMPRESSED_BLOCK_SIZE {
        FullBlockCloses(bsw.blocks, bd);
        ok := MustWriteBlockData(bd);
      } else if uncompressedRowsSizeBytes + this.bd.uncompressedSizeBytes + bd.uncompressedSizeBytes
                >= 2 * MAX_UNCOMPRESSED_BLOCK_SIZE {
        ok := FlushThenWrite(bd);
      } else {
        ok := MustMergeRows(bd);
      }
    }

    method FlushThenWrite(bd: BlockData) returns (ok: bool)
      requires Valid() && Compacts() && ValidBlock(bd) && Before(KeyOf(bd))
      requires bd.streamID != streamID || PendingBytes() + bd.uncompressedSizeBytes >= 2 * MAX_UNCOMPRESSED_BLOCK_SIZE
      modifies this, bsw
      ensures ok && Valid() && Compacts() && Before(KeyOf(bd)) && streamID == bd.streamID
      ensures SameNonEmptyRows(old(Taken()) + StreamRows(bd.streamID, bd.rows), Taken())
      ensures TakenBytes() <= old(TakenBytes()) + Bytes(bd.streamID, bd.uncompressedSizeBytes)
      ensures old(Pending()) == [] && bd.uncompressedSizeBytes >= 0x20_0000 ==> bsw.blocks == old(bsw.blocks) + [bd]
    {
      ghost var taken, takenBytes := Taken(), TakenBytes();
      ok := FlushBefore(bd);
      SetStreamID(bd.streamID);
      ghost var written := bsw.blocks;
      ok := MustWriteBlockData(bd);
      MoreTaken(taken, Content(written), StreamRows(bd.streamID, bd.rows));
      assert BytesOf(written) + Bytes(bd.streamID, bd.uncompressedSizeBytes) <= takenBytes + Bytes(bd.streamID, bd.uncompressedSizeBytes);
    }

    method SetStreamID(sid: StreamID)
      requires Valid() && Pending() == [] && streamID <= sid
      modifies this`streamID
      ensures Valid() && Pending() == [] && streamID == sid
    {
      streamID := sid;
    }

    method FlushBefore(bd: BlockData) returns (ok: bool)
      requires Valid() && Compacts() && ValidBlock(bd) && Before(KeyOf(bd))
      requires bd.streamID != streamID || PendingBytes() + bd.uncompressedSizeBytes >= 2 * MAX_UNCOMPRESSED_BLOCK_SIZE
      modifies this, bsw
      ensures ok && Valid() && Pending() == [] && streamID == old(streamID) && Leq(LastWritten(), KeyOf(bd))
      ensures MayFollow(bsw.blocks, bd)
      ensures SameNonEmptyRows(old(Taken()), Content(bsw.blocks)) && BytesOf(bsw.blocks) <= old(TakenBytes())
      ensures old(Pending()) == [] ==> bsw.blocks == old(bsw.blocks)
    {
      MayFollowFlushed(bd);
      ok := MustFlushRows();
    }

    lemma {:induction false} MayFollowFlushed(bd: BlockData)
      requires Valid() && Compacts() && ValidBlock(bd) && streamID <= bd.streamID
      requires bd.streamID != streamID || PendingBytes() + bd.uncompressedSizeBytes >= 2 * MAX_UNCOMPRESSED_BLOCK_SIZE
      ensures MayFollow(bsw.blocks + Flushed(), bd)
    {
      FlushedBlock();
      FlushedIsApart(bsw.blocks, Flushed(), streamID, bd);
    }
  }

  // ---------- The merge ----------

  /** Readers, each given by its blocks from the current one on; none is exhausted. */
  ghost predicate ValidReaders(heap: seq<seq<BlockData>>) {
    forall i :: 0 <= i < |heap| ==> heap[i] != [] && ValidBlocks(heap[i])
  }

  ghost predicate AllFrom(heap: seq<seq<BlockData>>, k: Key)
    requires ValidReaders(heap)
  {
    forall i :: 0 <= i < |heap| ==> Leq(k, KeyOf(heap[i][0]))
  }

  lemma {:induction false} ReaderAdded(blocks: seq<BlockData>, heap: seq<seq<BlockData>>, k: Key)
    requires blocks != [] && ValidBlocks(blocks) && Leq(k, KeyOf(blocks[0]))
    requires ValidReaders(heap) && AllFrom(heap, k)
    ensures ValidReaders([blocks] + heap) && AllFrom([blocks] + heap, k)
    ensures ContentOfAll([blocks] + heap) == Content(blocks) + ContentOfAll(heap)
    ensures BytesOfAll([blocks] + heap) == BytesOf(blocks) + BytesOfAll(heap)
    ensures BlocksLeft([blocks] + heap) == |blocks| + BlocksLeft(heap)
  {
    assert ([blocks] + heap)[1..] == heap;
  }

  lemma {:induction false} ReaderMoved(heap: seq<seq<BlockData>>, m: nat)
    requires m < |heap|
    ensures var moved := [heap[m]] + (heap[..m] + heap[m + 1..]);
            && ContentOfAll(moved) == ContentOfAll(heap)
            && BytesOfAll(moved) == BytesOfAll(heap) && BlocksLeft(moved) == BlocksLeft(heap)
  {
    ContentOfAllMoved(heap[m], heap[..m], heap[m + 1..]);
    assert heap == heap[..m] + ([heap[m]] + heap[m + 1..]);
  }

  lemma {:induction false} MovedAt(heap: seq<seq<BlockData>>, m: nat)
    requires m < |heap|
    ensures var moved := [heap[m]] + (heap[..m] + heap[m + 1..]);
            |moved| == |heap| && forall i :: 0 <= i < |moved| ==> moved[i] == heap[if i == 0 then m else if i <= m then i - 1 else i]
  {
  }

  lemma {:induction false} FirstReaderDropped(heap: seq<seq<BlockData>>, k: Key)
    requires heap != [] && ValidReaders(heap) && AllFrom(heap, k)
    ensures ValidReaders(heap[1..]) && AllFrom(heap[1..], k)
  {
  }

  /** Stands for the heap package: moves a reader with the smallest current block to the root. */
  method HeapFix(heap: seq<seq<BlockData>>) returns (fixed: seq<seq<BlockData>>)
    requires ValidReaders(heap)
    ensures ValidReaders(fixed) && (fixed != [] ==> AllFrom(fixed, KeyOf(fixed[0][0])))
    ensures forall k :: AllFrom(heap, k) ==> AllFrom(fixed, k)
    ensures BlocksLeft(fixed) == BlocksLeft(heap)
    ensures ContentOfAll(fixed) == ContentOfAll(heap) && BytesOfAll(fixed) == BytesOfAll(heap)
  {
    fixed := heap;
    if |heap| > 0 {
      var m := MinReader(heap);
      fixed := [heap[m]] + (heap[..m] + heap[m + 1..]);
      ReaderMoved(heap, m);
      MovedAt(heap, m);
      SameReaders(heap, fixed, m);
    }
  }

  lemma {:induction false} SameReaders(heap: seq<seq<BlockData>>, fixed: seq<seq<BlockData>>, m: nat)
    requires ValidReaders(heap) && m < |heap| == |fixed|
    requires forall i :: 0 <= i < |fixed| ==> fixed[i] == heap[if i == 0 then m else if i <= m then i - 1 else i]
    ensures ValidReaders(fixed) && fixed[0] == heap[m] && forall k :: AllFrom(heap, k) ==> AllFrom(fixed, k)
  {
  }

  method MinReader(heap: seq<seq<BlockData>>) returns (m: nat)
    requires ValidReaders(heap) && heap != []
    ensures m < |heap| && AllFrom(heap, KeyOf(heap[m][0]))
  {
    m := 0;
    for i := 1 to |heap|
      invariant m < |heap|
      invariant forall k :: 0 <= k < i ==> Leq(KeyOf(heap[m][0]), KeyOf(heap[k][0]))
    {
      if !Leq(KeyOf(heap[m][0]), KeyOf(heap[i][0])) {
        m := i;
      }
    }
  }

  /** A reader starts like a writer: it rejects a first block of the zero stream that starts
      before time zero. */
  predicate ReaderAccepts(blocks: seq<BlockData>) {
    blocks != [] ==> Leq(Key(0, 0), KeyOf(blocks[0]))
  }

  /** Loads the first block of every reader; false stands for a panic of a reader. */
  method MustInitReaders(readers: seq<seq<BlockData>>) returns (ok: bool, heap: seq<seq<BlockData>>)
    requires forall i :: 0 <= i < |readers| ==> ValidBlocks(readers[i])
    ensures ok == forall i :: 0 <= i < |readers| ==> ReaderAccepts(readers[i])
    ensures ok ==> ValidReaders(heap) && AllFrom(heap, Key(0, 0))
    ensures ok ==> ContentOfAll(heap) == ContentOfAll(readers) && BytesOfAll(heap) == BytesOfAll(readers)
  {
    heap := [];
    var i := |readers|;
    while i > 0
      invariant 0 <= i <= |readers| && ValidReaders(heap) && AllFrom(heap, Key(0, 0))
      invariant forall k :: i <= k < |readers| ==> ReaderAccepts(readers[k])
      invariant ContentOfAll(heap) == ContentOfAll(readers[i..]) && BytesOfAll(heap) == BytesOfAll(readers[i..])
    {
      i := i - 1;
      if !ReaderAccepts(readers[i]) {
        return false, [];
      }
      assert readers[i..][1..] == readers[i + 1..];
      if readers[i] != [] {
        ReaderAdded(readers[i], heap, Key(0, 0));
        heap := [readers[i]] + heap;
      }
    }
    assert readers[0..] == readers;
    return true, heap;
  }

  /** Moves the first reader to its next block, or drops it when it has none. */
  method NextBlock(heap: seq<seq<BlockData>>) returns (next: seq<seq<BlockData>>)
    requires ValidReaders(heap) && heap != [] && AllFrom(heap, KeyOf(heap[0][0]))
    ensures ValidReaders(next) && BlocksLeft(next) < BlocksLeft(heap)
    ensures AllFrom(next, KeyOf(heap[0][0]))
    ensures ContentOfAll(heap) == StreamRows(heap[0][0].streamID, heap[0][0].rows) + ContentOfAll(next)
    ensures BytesOfAll(heap) == Bytes(heap[0][0].streamID, heap[0][0].uncompressedSizeBytes) + BytesOfAll(next)
  {
    ContentOfHead(heap);
    FirstReaderDropped(heap, KeyOf(heap[0][0]));
    var rest := heap[0][1..];
    next := heap[1..];
    if rest != [] {
      TailIsValid(heap[0]);
      ReaderAdded(rest, next, KeyOf(heap[0][0]));
      next := [rest] + next;
    }
  }

  /** Merges the readers to the end. It fails exactly when some reader starts with a block of
      the zero stream and a negative timestamp; otherwise no consistency check fails, the
      written blocks are in order and small enough, and no row with fields is lost, repeated
      or moved to another stream. Blocks are joined: of two neighbouring blocks of a stream the
      first is full or both together are too big, no stream gets bigger, and a small one ends up
      in at most one block. */
  method MustMergeBlockStreams(readers: seq<seq<BlockData>>) returns (ok: bool, blocks: seq<BlockData>)
    requires forall i :: 0 <= i < |readers| ==> ValidBlocks(readers[i])
    ensures ok == forall i :: 0 <= i < |readers| ==> ReaderAccepts(readers[i])
    ensures ok ==> ValidBlocks(blocks)
    ensures ok ==> SameNonEmptyRows(ContentOfAll(readers), Content(blocks))
    ensures ok ==> IsCompacted(blocks) && BytesOf(blocks) <= BytesOfAll(readers)
    ensures ok ==> forall sid :: BytesOfAll(readers)[sid] < 0x20_0000 ==> AtMostOneBlock(blocks, sid)
  {
    var heap;
    ok, heap := MustInitReaders(readers);
    if !ok {
      return false, [];
    }
    heap := HeapFix(heap);
    var bsw := new BlockStreamWriter();
    var bsm := new BlockStreamMerger(bsw);
    while |heap| > 0
      invariant fresh(bsm) && fresh(bsw) && bsm.bsw == bsw && bsm.Valid()
      invariant ValidReaders(heap) && (heap != [] ==> AllFrom(heap, KeyOf(heap[0][0])))
      invariant heap != [] ==> bsm.Before(KeyOf(heap[0][0]))
      invariant SameNonEmptyRows(ContentOfAll(readers), bsm.Taken() + ContentOfAll(heap))
      invariant bsm.Compacts() && bsm.TakenBytes() + BytesOfAll(heap) <= BytesOfAll(readers)
      decreases BlocksLeft(heap)
    {
      heap := MergeNextBlock(bsm, heap, ContentOfAll(readers), BytesOfAll(readers));
    }
    blocks := FlushLast(bsm, ContentOfAll(readers), BytesOfAll(readers));
  }

  method FlushLast(bsm: BlockStreamMerger, ghost all: multiset<StreamRow>, ghost allBytes: multiset<StreamID>)
    returns (blocks: seq<BlockData>)
    requires bsm.Valid() && SameNonEmptyRows(all, bsm.Taken()) && bsm.Compacts() && bsm.TakenBytes() <= allBytes
    modifies bsm, bsm.bsw
    ensures ValidBlocks(blocks) && SameNonEmptyRows(all, Content(blocks)) && IsCompacted(blocks) && BytesOf(blocks) <= allBytes
    ensures forall sid :: allBytes[sid] < 0x20_0000 ==> AtMostOneBlock(blocks, sid)
  {
    bsm.FlushedBlock();
    FullFlushCloses(bsm.bsw.blocks, bsm.Flushed(), bsm.streamID);
    var written := bsm.MustFlushRows();
    assert written;
    blocks := bsm.bsw.blocks;
    SmallStreams(blocks, allBytes);
  }

  lemma {:induction false} SmallStreams(blocks: seq<BlockData>, bytes: multiset<StreamID>)
    requires ValidBlocks(blocks) && IsCompacted(blocks) && BytesOf(blocks) <= bytes
    ensures forall sid :: bytes[sid] < 0x20_0000 ==> AtMostOneBlock(blocks, sid)
  {
    forall sid | bytes[sid] < 0x20_0000 ensures AtMostOneBlock(blocks, sid) {
      SmallStreamIsOneBlock(blocks, sid);
    }
  }

  /** Of a block that is in order nothing is rejected or lost. */
  method WriteNext(bsm: BlockStreamMerger, bd: BlockData)
    requires bsm.Valid() && bsm.Compacts() && ValidBlock(bd) && bsm.Before(KeyOf(bd))
    modifies bsm, bsm.bsw
    ensures bsm.Valid() && bsm.Compacts() && bsm.Before(KeyOf(bd))
    ensures SameNonEmptyRows(old(bsm.Taken()) + StreamRows(bd.streamID, bd.rows), bsm.Taken())
    ensures bsm.TakenBytes() <= old(bsm.TakenBytes()) + Bytes(bd.streamID, bd.uncompressedSizeBytes)
  {
    var written := bsm.MustWriteBlock(bd);
    assert written;
  }

  /** One turn of the merge loop. */
  method MergeNextBlock(bsm: BlockStreamMerger, heap: seq<seq<BlockData>>, ghost all: multiset<StreamRow>, ghost allBytes: multiset<StreamID>)
    returns (next: seq<seq<BlockData>>)
    requires bsm.Valid() && ValidReaders(heap) && heap != [] && AllFrom(heap, KeyOf(heap[0][0]))
    requires bsm.Before(KeyOf(heap[0][0]))
    requires SameNonEmptyRows(all, bsm.Taken() + ContentOfAll(heap))
    requires bsm.Compacts() && bsm.TakenBytes() + BytesOfAll(heap) <= allBytes
    modifies bsm, bsm.bsw
    ensures bsm.Valid() && ValidReaders(next) && BlocksLeft(next) < BlocksLeft(heap)
    ensures next != [] ==> AllFrom(next, KeyOf(next[0][0])) && bsm.Before(KeyOf(next[0][0]))
    ensures SameNonEmptyRows(all, bsm.Taken() + ContentOfAll(next))
    ensures bsm.Compacts() && bsm.TakenBytes() + BytesOfAll(next) <= allBytes
  {
    var bd := heap[0][0];
    ghost var taken, takenBytes := bsm.Taken(), bsm.TakenBytes();
    WriteNext(bsm, bd);
    next := NextBlock(heap);
    NextTaken(all, taken, ContentOfAll(heap), StreamRows(bd.streamID, bd.rows), bsm.Taken(), ContentOfAll(next));
    NextBytesTaken(allBytes, takenBytes, BytesOfAll(heap), Bytes(bd.streamID, bd.uncompressedSizeBytes), bsm.TakenBytes(), BytesOfAll(next));
    next := HeapFix(next);
    if next != [] {
      assert AllFrom(next, KeyOf(bd));
      bsm.BeforeLater(KeyOf(bd), KeyOf(next[0][0]));
    }
  }
}
