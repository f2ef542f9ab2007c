/** Building the first blocks of a part from freshly ingested rows. */
module InmemoryPart {
  import opened Sorting
  import opened LogEntries
  import opened BlockMerge

  function StreamKey(x: StreamRow): Key {
    Key(x.0, x.1.timestamp)
  }

  /** The order of ingested rows. */
  predicate RowLeq(a: StreamRow, b: StreamRow) {
    Leq(StreamKey(a), StreamKey(b))
  }

  ghost predicate SmallRows(lr: seq<StreamRow>) {
    forall i :: 0 <= i < |lr| ==> RowLen(lr[i].1.fields) <= MAX_UNCOMPRESSED_BLOCK_SIZE
  }

  /** After i rows: trs is the block being collected, `last` the start of the block written
      before it, if any. */
  ghost predicate Collecting(rows: seq<StreamRow>, i: nat, trs: seq<Row>, sidPrev: StreamID, size: nat,
                             written: bool, last: Key)
    requires i <= |rows|
  {
    && size == RowsSize(trs) < 2 * MAX_UNCOMPRESSED_BLOCK_SIZE
    && SortedByTime(trs)
    && if i == 0 then trs == [] && !written
       else
         && trs != [] && rows[i - 1] == (sidPrev, trs[|trs| - 1])
         && if written then Leq(last, Key(sidPrev, trs[0].timestamp)) && Leq(Key(0, 0), StreamKey(rows[0]))
            else Key(sidPrev, trs[0].timestamp) == StreamKey(rows[0])
  }

  // ---------- Where blocks are cut ----------

  /** A block records the size of its rows and is not full without the last one. */
  ghost predicate IsCut(bd: BlockData) {
    bd.rows != [] && bd.uncompressedSizeBytes == RowsSize(bd.rows) && RowsSize(bd.rows[..|bd.rows| - 1]) < 0x20_0000
  }

  /** Blocks are cut where they are full or the stream ends, and nowhere else. */
  ghost predicate AreCut(blocks: seq<BlockData>) {
    (forall i :: 0 <= i < |blocks| ==> IsCut(blocks[i])) && forall i :: 0 < i < |blocks| ==> IsFullOrLast(blocks, i)
  }

  ghost predicate IsFullOrLast(blocks: seq<BlockData>, i: nat)
    requires 0 < i < |blocks|
  {
    blocks[i - 1].streamID == blocks[i].streamID ==> blocks[i - 1].uncompressedSizeBytes >= 0x20_0000
  }

  /** The rows being collected go on behind the blocks. */
  ghost predicate Cutting(blocks: seq<BlockData>, sid: StreamID, trs: seq<Row>) {
    && AreCut(blocks)
    && (blocks != [] && blocks[|blocks| - 1].streamID == sid ==> blocks[|blocks| - 1].uncompressedSizeBytes >= 0x20_0000)
    && (trs != [] ==> RowsSize(trs[..|trs| - 1]) < 0x20_0000)
  }

  lemma {:induction false} BlockIsCut(blocks: seq<BlockData>, sid: StreamID, trs: seq<Row>)
    requires Cutting(blocks, sid, trs) && trs != []
    ensures AreCut(blocks + [BlockData(sid, RowsSize(trs), trs)])
  {
    var blocks' := blocks + [BlockData(sid, RowsSize(trs), trs)];
    forall i | 0 < i < |blocks'| ensures IsFullOrLast(blocks', i) {
      if i < |blocks| {
        assert IsFullOrLast(blocks, i);
      }
    }
  }

  lemma {:induction false} CollectOn(blocks: seq<BlockData>, sid: StreamID, trs: seq<Row>, row: Row)
    requires Cutting(blocks, sid, trs) && RowsSize(trs) < MAX_UNCOMPRESSED_BLOCK_SIZE
    ensures Cutting(blocks, sid, trs + [row])
  {
    assert (trs + [row])[..|trs|] == trs;
  }

  lemma {:induction false} StreamRowsAppend(sid: StreamID, rows: seq<Row>, row: Row)
    ensures StreamRows(sid, rows + [row]) == StreamRows(sid, rows) + multiset{(sid, row)}
  {
    if rows != [] {
      assert (rows + [row])[1..] == rows[1..] + [row];
      StreamRowsAppend(sid, rows[1..], row);
    }
  }

  /** Cuts the sorted rows into blocks: a new block starts with a new stream or when the
      block has reached its size. It fails exactly when some row belongs to the zero stream
      and is older than time zero. Of two neighbouring blocks of a stream the first is full, and
      no block is full before its last row. */
  method MustInitFromRows(lr: seq<StreamRow>) returns (ok: bool, blocks: seq<BlockData>)
    requires SmallRows(lr)
    ensures ok == forall i :: 0 <= i < |lr| ==> Leq(Key(0, 0), StreamKey(lr[i]))
    ensures ok ==> ValidBlocks(blocks)
    ensures ok ==> Content(blocks) == multiset(lr) && AreCut(blocks)
  {
    var rows := Sort(lr, RowLeq);
    SortKeeps(lr, rows);
    ok, blocks := WriteSortedRows(rows);
  }

  method WriteSortedRows(rows: seq<StreamRow>) returns (ok: bool, blocks: seq<BlockData>)
    requires SmallRows(rows)
    requires forall i, j :: 0 <= i < j < |rows| ==> Leq(StreamKey(rows[i]), StreamKey(rows[j]))
    ensures ok == (rows != [] ==> Leq(Key(0, 0), StreamKey(rows[0])))
    ensures ok ==> ValidBlocks(blocks) && Content(blocks) == multiset(rows) && AreCut(blocks)
  {
    var bsw := new BlockStreamWriter();
    var trs: seq<Row> := [];
    var sidPrev: StreamID := if |rows| > 0 then rows[0].0 else 0;
    var uncompressedBlockSizeBytes: nat := 0;
    for i := 0 to |rows|
      invariant fresh(bsw) && bsw.Valid()
      invariant Collecting(rows, i, trs, sidPrev, uncompressedBlockSizeBytes,
                           bsw.blocks != [], Key(bsw.sidLast, bsw.minTimestampLast))
      invariant i == 0 && |rows| > 0 ==> sidPrev == rows[0].0
      invariant Content(bsw.blocks) + StreamRows(sidPrev, trs) == multiset(rows[..i])
      invariant Cutting(bsw.blocks, sidPrev, trs)
    {
      ok, trs, sidPrev, uncompressedBlockSizeBytes :=
        AddRow(bsw, rows, i, trs, sidPrev, uncompressedBlockSizeBytes);
      if !ok {
        return false, [];
      }
    }
    ok := WriteCollected(bsw, rows, |rows|, trs, sidPrev, uncompressedBlockSizeBytes);
    blocks := bsw.blocks;
    assert rows[..|rows|] == rows;
  }

  /** One turn of the loop over rows. */
  method AddRow(bsw: BlockStreamWriter, rows: seq<StreamRow>, i: nat,
                trs0: seq<Row>, sidPrev0: StreamID, size0: nat)
    returns (ok: bool, trs: seq<Row>, sidPrev: StreamID, size: nat)
    requires bsw.Valid() && i < |rows| && RowLen(rows[i].1.fields) <= MAX_UNCOMPRESSED_BLOCK_SIZE
    requires i > 0 ==> Leq(StreamKey(rows[i - 1]), StreamKey(rows[i]))
    requires Collecting(rows, i, trs0, sidPrev0, size0, bsw.blocks != [], Key(bsw.sidLast, bsw.minTimestampLast))
    requires i == 0 ==> sidPrev0 == rows[0].0
    requires Content(bsw.blocks) + StreamRows(sidPrev0, trs0) == multiset(rows[..i])
    requires Cutting(bsw.blocks, sidPrev0, trs0)
    modifies bsw
    ensures bsw.Valid()
    ensures !ok ==> !Leq(Key(0, 0), StreamKey(rows[0]))
    ensures ok ==> Collecting(rows, i + 1, trs, sidPrev, size, bsw.blocks != [], Key(bsw.sidLast, bsw.minTimestampLast))
    ensures ok ==> Content(bsw.blocks) + StreamRows(sidPrev, trs) == multiset(rows[..i + 1])
    ensures ok ==> Cutting(bsw.blocks, sidPrev, trs)
  {
    ok, trs, sidPrev, size := true, trs0, sidPrev0, size0;
    var streamID := rows[i].0;
    if size >= MAX_UNCOMPRESSED_BLOCK_SIZE || streamID != sidPrev {
      ok := WriteCollected(bsw, rows, i, trs, sidPrev, size);
      if !ok {
        return;
      }
      trs, sidPrev, size := [], streamID, 0;
    }
    CollectRow(rows, i, trs, sidPrev, size, bsw.blocks != [], Key(bsw.sidLast, bsw.minTimestampLast), Content(bsw.blocks));
    CollectOn(bsw.blocks, sidPrev, trs, rows[i].1);
    trs := trs + [rows[i].1];
    size := size + RowLen(rows[i].1.fields);
  }

  /** Writes the collected rows as one block. */
  method WriteCollected(bsw: BlockStreamWriter, ghost rows: seq<StreamRow>, ghost i: nat,
                        trs: seq<Row>, sidPrev: StreamID, ghost size: nat)
    returns (ok: bool)
    requires bsw.Valid() && i <= |rows|
    requires Collecting(rows, i, trs, sidPrev, size, bsw.blocks != [], Key(bsw.sidLast, bsw.minTimestampLast))
    requires Cutting(bsw.blocks, sidPrev, trs)
    modifies bsw
    ensures bsw.Valid()
    ensures ok == (i > 0 ==> Leq(Key(0, 0), StreamKey(rows[0])))
    ensures ok ==> Content(bsw.blocks) == old(Content(bsw.blocks)) + StreamRows(sidPrev, trs) && AreCut(bsw.blocks)
    ensures ok && i > 0 ==> bsw.blocks != []
    ensures ok && i > 0 ==> bsw.blocks[|bsw.blocks| - 1] == BlockData(sidPrev, size, trs)
    ensures ok && i > 0 ==> Key(bsw.sidLast, bsw.minTimestampLast) == Key(sidPrev, trs[0].timestamp)
    ensures i == 0 ==> bsw.blocks == old(bsw.blocks)
  {
    ContentAppend(bsw.blocks, BlockData(sidPrev, RowsSize(trs), trs));
    if trs != [] {
      BlockIsCut(bsw.blocks, sidPrev, trs);
    }
    ok := bsw.MustWriteRows(sidPrev, trs);
  }

  /** Sorting keeps the rows, so also whether all of them come after the zero key. */
  lemma {:induction false} SortKeeps(lr: seq<StreamRow>, rows: seq<StreamRow>)
    requires multiset(rows) == multiset(lr) && SortedBy(rows, RowLeq)
    ensures |rows| == |lr|
    ensures forall i, j :: 0 <= i < j < |rows| ==> Leq(StreamKey(rows[i]), StreamKey(rows[j]))
    ensures SmallRows(lr) ==> SmallRows(rows)
    ensures (rows != [] ==> Leq(Key(0, 0), StreamKey(rows[0])))
            <==> forall i :: 0 <= i < |lr| ==> Leq(Key(0, 0), StreamKey(lr[i]))
  {
    assert |rows| == |multiset(rows)| == |lr|;
    assert forall i, j :: 0 <= i < j < |rows| ==> RowLeq(rows[i], rows[j]);
    forall i | 0 <= i < |rows| ensures rows[i] in lr {
      assert rows[i] in multiset(lr);
    }
    forall i | 0 <= i < |lr| ensures lr[i] in rows {
      assert lr[i] in multiset(rows);
    }
  }

  /** Adding row i to the block being collected, which may just have been started. */
  lemma {:induction false} CollectRow(rows: seq<StreamRow>, i: nat, trs: seq<Row>, sidPrev: StreamID, size: nat,
                   written: bool, last: Key, content: multiset<StreamRow>)
    requires i < |rows| && rows[i].0 == sidPrev
    requires content + StreamRows(sidPrev, trs) == multiset(rows[..i])
    requires i > 0 ==> Leq(StreamKey(rows[i - 1]), StreamKey(rows[i]))
    requires size < MAX_UNCOMPRESSED_BLOCK_SIZE && RowLen(rows[i].1.fields) <= MAX_UNCOMPRESSED_BLOCK_SIZE
    requires trs == [] && size == 0 && written ==> i > 0 && Leq(last, StreamKey(rows[i])) && Leq(Key(0, 0), StreamKey(rows[0]))
    requires trs == [] && size == 0 && !written ==> i == 0
    requires trs != [] ==> Collecting(rows, i, trs, sidPrev, size, written, last)
    requires trs == [] ==> size == 0
    ensures Collecting(rows, i + 1, trs + [rows[i].1], sidPrev, size + RowLen(rows[i].1.fields), written, last)
    ensures content + StreamRows(sidPrev, trs + [rows[i].1]) == multiset(rows[..i + 1])
  {
    RowsSizeConcat(trs, [rows[i].1]);
    RowIsAdded(rows, i, trs, sidPrev, content);
  }

  lemma {:induction false} RowIsAdded(rows: seq<StreamRow>, i: nat, trs: seq<Row>, sidPrev: StreamID, content: multiset<StreamRow>)
    requires i < |rows| && rows[i].0 == sidPrev && content + StreamRows(sidPrev, trs) == multiset(rows[..i])
    ensures content + StreamRows(sidPrev, trs + [rows[i].1]) == multiset(rows[..i + 1])
  {
    StreamRowsAppend(sidPrev, trs, rows[i].1);
    assert rows[..i + 1] == rows[..i] + [rows[i]];
  }
}
