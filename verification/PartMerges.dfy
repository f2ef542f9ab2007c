/** Merging parts that are read from their files. */
module PartMerges {
  import opened LogEntries
  import opened StringsBlock
  import opened BlockMerge
  import PH = PartHeaders
  import PF = PartFiles
  import PS = PartStreams
  import PR = PartReaders

  /** The block as the merger sees it; `unpack` decodes the columns of a packed block. */
  function AsBlock(unpack: PF.BlockData -> seq<Row>, bd: PF.BlockData): BlockData {
    BlockData(bd.streamID, bd.uncompressedSizeBytes, unpack(bd))
  }

  function AsBlocks(unpack: PF.BlockData -> seq<Row>, bds: seq<PF.BlockData>): (blocks: seq<BlockData>)
    ensures |blocks| == |bds| && forall i :: 0 <= i < |bds| ==> blocks[i] == AsBlock(unpack, bds[i])
  {
    seq(|bds|, i requires 0 <= i < |bds| => AsBlock(unpack, bds[i]))
  }

  /** The recorded facts about the packed block are those of its rows. */
  ghost predicate IsPacked(unpack: PF.BlockData -> seq<Row>, bd: PF.BlockData) {
    && ValidBlock(AsBlock(unpack, bd))
    && |unpack(bd)| == bd.rowsCount
    && unpack(bd)[0].timestamp == bd.timestampsData.minTimestamp
  }

  ghost predicate ArePacked(unpack: PF.BlockData -> seq<Row>, bds: seq<PF.BlockData>) {
    forall i :: 0 <= i < |bds| ==> IsPacked(unpack, bds[i])
  }

  lemma {:induction false} HeaderAt(z: Compression, b: PS.Blocks, i: nat)
    requires PS.AreBlocks(z, b) && i < |b.bds|
    ensures PS.IsHeaderOf(b.bhs[i], b.bds[i])
  {
    assert PS.IsStep(z, b, i);
  }

  /** The writer's order of block headers is the merger's order of blocks. */
  lemma {:induction false} NextIsNotBefore(z: Compression, unpack: PF.BlockData -> seq<Row>, b: PS.Blocks, i: nat)
    requires PS.AreBlocks(z, b) && ArePacked(unpack, b.bds) && i < |b.bds|
    ensures Leq(if i == 0 then Key(0, 0) else KeyOf(AsBlock(unpack, b.bds[i - 1])), KeyOf(AsBlock(unpack, b.bds[i])))
  {
    PS.OrderAt(z, b, i);
    HeaderAt(z, b, i);
    assert IsPacked(unpack, b.bds[i]);
    if i > 0 {
      HeaderAt(z, b, i - 1);
      assert IsPacked(unpack, b.bds[i - 1]);
    }
  }

  lemma {:induction false} LaterIsNotBefore(z: Compression, unpack: PF.BlockData -> seq<Row>, b: PS.Blocks, i: nat, j: nat)
    requires PS.AreBlocks(z, b) && ArePacked(unpack, b.bds) && i <= j < |b.bds|
    ensures Leq(KeyOf(AsBlock(unpack, b.bds[i])), KeyOf(AsBlock(unpack, b.bds[j])))
  {
    if i < j {
      LaterIsNotBefore(z, unpack, b, i, j - 1);
      NextIsNotBefore(z, unpack, b, j);
    }
  }

  /** What a part holds is what the merger demands of a reader, and never makes it panic. */
  lemma {:induction false} PartIsMergeable(z: Compression, unpack: PF.BlockData -> seq<Row>, b: PS.Blocks)
    requires PS.AreBlocks(z, b) && ArePacked(unpack, b.bds)
    ensures ValidBlocks(AsBlocks(unpack, b.bds)) && ReaderAccepts(AsBlocks(unpack, b.bds))
  {
    var blocks := AsBlocks(unpack, b.bds);
    forall i | 0 <= i < |blocks| ensures ValidBlock(blocks[i]) {
      assert IsPacked(unpack, b.bds[i]);
    }
    forall i, j | 0 <= i < j < |blocks| ensures Leq(KeyOf(blocks[i]), KeyOf(blocks[j])) {
      LaterIsNotBefore(z, unpack, b, i, j);
    }
    if blocks != [] {
      NextIsNotBefore(z, unpack, b, 0);
    }
  }

  /** How a part was written. */
  datatype Written = Written(b: PS.Blocks, groups: seq<seq<PH.BlockHeader>>, ids: seq<nat>)

  ghost predicate AreParts(z: Compression, unpack: PF.BlockData -> seq<Row>, parts: seq<PS.Part>, ws: seq<Written>) {
    |parts| == |ws| &&
    forall i {:trigger IsPartOf(z, unpack, parts[i], ws[i])} :: 0 <= i < |parts| ==> IsPartOf(z, unpack, parts[i], ws[i])
  }

  ghost predicate IsPartOf(z: Compression, unpack: PF.BlockData -> seq<Row>, part: PS.Part, w: Written) {
    PS.IsPart(z, part, w.b, w.groups, w.ids) && ArePacked(unpack, w.b.bds)
  }

  ghost function BlocksOf(unpack: PF.BlockData -> seq<Row>, ws: seq<Written>): (readers: seq<seq<BlockData>>)
    ensures |readers| == |ws| && forall i :: 0 <= i < |ws| ==> readers[i] == AsBlocks(unpack, ws[i].b.bds)
  {
    seq(|ws|, i requires 0 <= i < |ws| => AsBlocks(unpack, ws[i].b.bds))
  }

  method ReadParts(z: Compression, unpack: PF.BlockData -> seq<Row>, parts: seq<PS.Part>, ghost ws: seq<Written>)
    returns (readers: seq<seq<BlockData>>)
    requires Invertible(z) && PS.CompressesIndexBlocks(z) && AreParts(z, unpack, parts, ws)
    ensures readers == BlocksOf(unpack, ws)
  {
    readers := [];
    for i := 0 to |parts|
      invariant |readers| == i && forall k :: 0 <= k < i ==> readers[k] == AsBlocks(unpack, ws[k].b.bds)
    {
      var reader := ReadBlocks(z, unpack, parts, ws, i);
      readers := readers + [reader];
    }
  }

  method ReadBlocks(z: Compression, unpack: PF.BlockData -> seq<Row>, parts: seq<PS.Part>, ghost ws: seq<Written>, i: nat)
    returns (blocks: seq<BlockData>)
    requires Invertible(z) && PS.CompressesIndexBlocks(z) && AreParts(z, unpack, parts, ws) && i < |parts|
    ensures blocks == AsBlocks(unpack, ws[i].b.bds)
  {
    assert IsPartOf(z, unpack, parts[i], ws[i]);
    var bds := PR.ReadPart(z, parts[i], ws[i].b, ws[i].groups, ws[i].ids);
    blocks := AsBlocks(unpack, bds);
  }

  /** Merging written parts never fails, and the result holds their rows in as few blocks as
      the merger is to make of them. */
  method MergeParts(z: Compression, unpack: PF.BlockData -> seq<Row>, parts: seq<PS.Part>, ghost ws: seq<Written>)
    returns (blocks: seq<BlockData>)
    requires Invertible(z) && PS.CompressesIndexBlocks(z) && AreParts(z, unpack, parts, ws)
    ensures ValidBlocks(blocks) && SameNonEmptyRows(ContentOfAll(BlocksOf(unpack, ws)), Content(blocks))
    ensures IsCompacted(blocks) && BytesOf(blocks) <= BytesOfAll(BlocksOf(unpack, ws))
    ensures forall sid :: BytesOfAll(BlocksOf(unpack, ws))[sid] < 0x20_0000 ==> AtMostOneBlock(blocks, sid)
  {
    var readers := ReadParts(z, unpack, parts, ws);
    forall i | 0 <= i < |readers| ensures ValidBlocks(readers[i]) && ReaderAccepts(readers[i]) {
      assert IsPartOf(z, unpack, parts[i], ws[i]);
      PartIsMergeable(z, unpack, ws[i].b);
    }
    var ok;
    ok, blocks := MustMergeBlockStreams(readers);
    assert ok;
  }
}
