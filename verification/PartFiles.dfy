/** The files of a part: writing packed blocks to them and reading the blocks back. */
module PartFiles {
  import BE = BigEndian
  import opened StringsBlock
  import opened PartHeaders
  import opened ColumnNames

  // ---------- Packed blocks ----------

  datatype TimestampsData = TimestampsData(data: Bytes, marshalType: Byte, minTimestamp: Int64, maxTimestamp: Int64)

  datatype ColumnData = ColumnData(name: Bytes, valueType: ValueType, minValue: nat, maxValue: nat, valuesDict: seq<Bytes>,
    valuesData: Bytes, bloomFilterData: Bytes)

  datatype BlockData = BlockData(streamID: StreamID, uncompressedSizeBytes: nat, rowsCount: nat,
    timestampsData: TimestampsData, columnsData: seq<ColumnData>, constColumns: seq<Field>)

  /** Values fit their type, and a dict column has no bloom filter. */
  ghost predicate ValidColumn(cd: ColumnData) {
    cd.minValue < BE.Power256(MinMaxWidth(cd.valueType)) && cd.maxValue < BE.Power256(MinMaxWidth(cd.valueType)) &&
    (if cd.valueType == Dict then |cd.valuesDict| < 256 && cd.bloomFilterData == [] else cd.valuesDict == []) &&
    |cd.valuesData| <= MAX_BLOCK_SIZE && |cd.bloomFilterData| <= MAX_BLOCK_SIZE
  }

  ghost predicate ValidBlock(bd: BlockData) {
    ValidStreamID(bd.streamID) && 0 < bd.rowsCount <= MAX_ROWS_PER_BLOCK && |bd.timestampsData.data| <= MAX_BLOCK_SIZE &&
    bd.timestampsData.minTimestamp <= bd.timestampsData.maxTimestamp &&
    |bd.columnsData| + |bd.constColumns| <= 2000 &&
    forall i :: 0 <= i < |bd.columnsData| ==> ValidColumn(bd.columnsData[i])
  }

  // ---------- Writing ----------

  /** The files with bloom filters and values of some columns. */
  datatype BloomValues = BloomValues(bloom: Bytes, values: Bytes)

  const NO_BLOOM_VALUES := BloomValues([], [])

  /** What has been written to the files; the number of bytes written to a file is its length. */
  datatype StreamWriters = StreamWriters(columnsHeaderIndex: Bytes, columnsHeader: Bytes, timestamps: Bytes, message: BloomValues,
    shards: seq<BloomValues>, maxShards: nat, generator: Generator, columnIdxs: map<nat, nat>, nextColumnIdx: nat)

  function NoFiles(maxShards: nat): StreamWriters {
    StreamWriters([], [], [], NO_BLOOM_VALUES, [], maxShards, NO_NAMES, map[], 0)
  }

  /** Shards are created one after another until there are maxShards of them. */
  ghost predicate ValidWriters(sw: StreamWriters) {
    sw.maxShards > 0 && ValidGenerator(sw.generator) &&
    |sw.shards| == (if sw.nextColumnIdx < sw.maxShards then sw.nextColumnIdx else sw.maxShards) &&
    (forall id :: id in sw.columnIdxs ==> id < |sw.generator.columnNames| && sw.columnIdxs[id] < |sw.shards|) &&
    sw.columnIdxs.Values == Below(|sw.shards|)
  }

  /** Every shard below n. */
  ghost function Below(n: nat): set<nat> {
    if n == 0 then {} else Below(n - 1) + {n - 1}
  }

  datatype Place = Message | Shard(idx: nat)

  function GetBloomValuesWriter(sw: StreamWriters, name: Bytes): (StreamWriters, Place)
    requires sw.maxShards > 0
  {
    if name == [] then (sw, Message)
    else
      var (g, columnID) := GetColumnNameID(sw.generator, name);
      if columnID in sw.columnIdxs then (sw.(generator := g), Shard(sw.columnIdxs[columnID]))
      else
        var shardIdx := sw.nextColumnIdx % sw.maxShards;
        (sw.(generator := g, nextColumnIdx := sw.nextColumnIdx + 1, columnIdxs := sw.columnIdxs[columnID := shardIdx],
          shards := if shardIdx >= |sw.shards| then sw.shards + [NO_BLOOM_VALUES] else sw.shards),
         Shard(shardIdx))
  }

  predicate HasPlace(sw: StreamWriters, place: Place) {
    place.Message? || place.idx < |sw.shards|
  }

  function ValuesAt(sw: StreamWriters, place: Place): BloomValues
    requires HasPlace(sw, place)
  {
    if place.Message? then sw.message else sw.shards[place.idx]
  }

  function WithValues(sw: StreamWriters, place: Place, bv: BloomValues): StreamWriters
    requires HasPlace(sw, place)
  {
    if place.Message? then sw.(message := bv) else sw.(shards := sw.shards[place.idx := bv])
  }

  /** The shards of a part are dense: a new one always is the next one. */
  lemma {:induction false} ShardIsNext(sw: StreamWriters, name: Bytes)
    requires ValidWriters(sw)
    ensures var (sw', place) := GetBloomValuesWriter(sw, name);
            ValidWriters(sw') && HasPlace(sw', place) && |sw.shards| <= |sw'.shards| <= |sw.shards| + 1 &&
            (place.Shard? ==> place.idx <= |sw.shards|)
    ensures var (sw', place) := GetBloomValuesWriter(sw, name);
            Grows(sw, sw') &&
            (name != [] ==> var id := GetColumnNameID(sw'.generator, name).1;
               id in sw'.columnIdxs && place == Shard(sw'.columnIdxs[id]) && id < |sw'.generator.columnNames| && sw'.generator.columnNames[id] == name)
  {
    if name != [] {
      var id := GetColumnNameID(sw.generator, name).1;
      IDNamesColumn(sw.generator, name);
      NextShard(sw.nextColumnIdx, sw.maxShards);
      if id !in sw.columnIdxs {
        ValueIsAdded(sw.columnIdxs, id, sw.nextColumnIdx % sw.maxShards, |sw.shards|);
      }
    }
  }

  lemma {:induction false} InBelow(n: nat, i: nat)
    ensures i in Below(n) <==> i < n
  {
    if n > 0 {
      InBelow(n - 1, i);
    }
  }

  /** A new column goes to a shard that is in use, or to the next one. */
  lemma {:induction false} ValueIsAdded(columnIdxs: map<nat, nat>, id: nat, idx: nat, n: nat)
    requires columnIdxs.Values == Below(n) && id !in columnIdxs && idx <= n
    ensures columnIdxs[id := idx].Values == Below(if idx == n then n + 1 else n)
  {
    InBelow(n, idx);
    assert columnIdxs[id := idx].Values == columnIdxs.Values + {idx} by {
      var all := columnIdxs[id := idx];
      forall v | v in columnIdxs.Values
        ensures v in all.Values
      {
        var k :| k in columnIdxs && columnIdxs[k] == v;
        assert all[k] == v;
      }
      assert all[id] == idx;
    }
  }

  lemma {:induction false} NextShard(n: nat, maxShards: nat)
    requires maxShards > 0
    ensures n < maxShards ==> n % maxShards == n
    ensures n % maxShards < maxShards
  {
  }

  /** b has everything that a has, and maybe more after it. */
  ghost predicate Grows(a: StreamWriters, b: StreamWriters) {
    a.columnsHeaderIndex <= b.columnsHeaderIndex && a.columnsHeader <= b.columnsHeader && a.timestamps <= b.timestamps &&
    GrowsTo(a.message, b.message) && |a.shards| <= |b.shards| &&
    (forall i :: 0 <= i < |a.shards| ==> GrowsTo(a.shards[i], b.shards[i])) &&
    a.generator.columnNames <= b.generator.columnNames &&
    (forall id :: id in a.columnIdxs ==> id in b.columnIdxs && b.columnIdxs[id] == a.columnIdxs[id])
  }

  ghost predicate GrowsTo(a: BloomValues, b: BloomValues) {
    a.bloom <= b.bloom && a.values <= b.values
  }

  lemma {:induction false} GrowsOn(a: StreamWriters, b: StreamWriters, c: StreamWriters)
    requires Grows(a, b) && Grows(b, c)
    ensures Grows(a, c)
  {
  }

  function HeaderOf(cd: ColumnData, bv: BloomValues): ColumnHeader {
    ColumnHeader(cd.name, cd.valueType, cd.minValue, cd.maxValue, cd.valuesDict, |bv.values|, |cd.valuesData|, |bv.bloom|, |cd.bloomFilterData|)
  }

  function WriteColumn(sw: StreamWriters, cd: ColumnData): (r: (StreamWriters, ColumnHeader))
    requires ValidWriters(sw)
  {
    var (sw1, place) := GetBloomValuesWriter(sw, cd.name);
    ShardIsNext(sw, cd.name);
    var bv := ValuesAt(sw1, place);
    (WithValues(sw1, place, AppendTo(bv, cd)), HeaderOf(cd, bv))
  }

  lemma {:induction false} ColumnGrows(sw: StreamWriters, cd: ColumnData)
    requires ValidWriters(sw)
    ensures var (sw', ch) := WriteColumn(sw, cd);
            ValidWriters(sw') && Grows(sw, sw')
    ensures ValidColumn(cd) ==> ValidColumnHeader(WriteColumn(sw, cd).1)
  {
    ShardIsNext(sw, cd.name);
    var (sw1, place) := GetBloomValuesWriter(sw, cd.name);
    assert Grows(sw1, WriteColumn(sw, cd).0);
    GrowsOn(sw, sw1, WriteColumn(sw, cd).0);
  }

  // ---------- Reading ----------

  /** A file and how much of it has been read. */
  datatype Reader = Reader(data: Bytes, bytesRead: nat)

  function ReadFull(r: Reader, n: nat): Result<(Bytes, Reader)> {
    if r.bytesRead + n > |r.data| then Err
    else Ok((r.data[r.bytesRead..r.bytesRead + n], r.(bytesRead := r.bytesRead + n)))
  }

  /** Err stands for a panic: the block is not where the file has been read to, is too big, or is not there. */
  function ReadAt(r: Reader, offset: nat, size: nat): Result<(Bytes, Reader)> {
    if offset != r.bytesRead || size > MAX_BLOCK_SIZE then Err else ReadFull(r, size)
  }

  /** Exactly what had been written up to some moment has been read from a file. */
  ghost predicate At(r: Reader, written: Bytes, all: Bytes) {
    r.data == all && r.bytesRead == |written| && written <= all
  }

  lemma {:induction false} ReadsBack(r: Reader, written: Bytes, chunk: Bytes, all: Bytes)
    requires At(r, written, all) && written + chunk <= all
    ensures ReadFull(r, |chunk|) == Ok((chunk, r.(bytesRead := |written + chunk|)))
    ensures At(r.(bytesRead := |written + chunk|), written + chunk, all)
  {
    assert all[..|written + chunk|] == written + chunk;
    assert all[|written|..|written + chunk|] == all[..|written + chunk|][|written|..];
  }

  datatype BloomValuesReader = BloomValuesReader(bloom: Reader, values: Reader)

  datatype StreamReaders = StreamReaders(columnsHeaderIndex: Reader, columnsHeader: Reader, timestamps: Reader, message: BloomValuesReader,
    shards: seq<BloomValuesReader>, columnIdxs: map<Bytes, nat>, columnNames: seq<Bytes>)

  function GetBloomValuesReader(sr: StreamReaders, name: Bytes): Result<Place> {
    if name == [] then Ok(Message)
    else if name !in sr.columnIdxs || sr.columnIdxs[name] >= |sr.shards| then Err
    else Ok(Shard(sr.columnIdxs[name]))
  }

  predicate HasReader(sr: StreamReaders, place: Place) {
    place.Message? || place.idx < |sr.shards|
  }

  function ReaderAt(sr: StreamReaders, place: Place): BloomValuesReader
    requires HasReader(sr, place)
  {
    if place.Message? then sr.message else sr.shards[place.idx]
  }

  function WithReader(sr: StreamReaders, place: Place, r: BloomValuesReader): StreamReaders
    requires HasReader(sr, place)
  {
    if place.Message? then sr.(message := r) else sr.(shards := sr.shards[place.idx := r])
  }

  /** A dict column has no bloom filter to be read. */
  function ReadBloomValues(r: BloomValuesReader, ch: ColumnHeader): Result<((Bytes, Bytes), BloomValuesReader)> {
    var (valuesData, values) :- ReadAt(r.values, ch.valuesOffset, ch.valuesSize);
    if ch.valueType == Dict then Ok((([], valuesData), BloomValuesReader(r.bloom, values)))
    else
      var (bloomFilterData, bloom) :- ReadAt(r.bloom, ch.bloomFilterOffset, ch.bloomFilterSize);
      Ok(((bloomFilterData, valuesData), BloomValuesReader(bloom, values)))
  }

  function ReadColumn(sr: StreamReaders, ch: ColumnHeader): Result<(ColumnData, StreamReaders)> {
    var place :- GetBloomValuesReader(sr, ch.name);
    var (data, r) :- ReadBloomValues(ReaderAt(sr, place), ch);
    Ok((ColumnData(ch.name, ch.valueType, ch.minValue, ch.maxValue, ch.valuesDict, data.1, data.0), WithReader(sr, place, r)))
  }

  ghost predicate BothAt(r: BloomValuesReader, written: BloomValues, all: BloomValues) {
    At(r.bloom, written.bloom, all.bloom) && At(r.values, written.values, all.values)
  }

  function ShardOrNone(shards: seq<BloomValues>, i: nat): BloomValues {
    if i < |shards| then shards[i] else NO_BLOOM_VALUES
  }

  /** Of every shard, exactly what had been written has been read. */
  ghost predicate ShardsAt(readers: seq<BloomValuesReader>, shards: seq<BloomValues>, all: seq<BloomValues>) {
    |readers| == |all| && forall i :: 0 <= i < |readers| ==> BothAt(readers[i], ShardOrNone(shards, i), all[i])
  }

  /** The reader of the finished files has read the columns that had been written when the writers were at sw. */
  ghost predicate ColumnsInSync(sr: StreamReaders, sw: StreamWriters, all: StreamWriters) {
    Grows(sw, all) && ValidGenerator(all.generator) && sr.columnNames == all.generator.columnNames &&
    BothAt(sr.message, sw.message, all.message) && ShardsAt(sr.shards, sw.shards, all.shards) &&
    ShardsByName(sr.columnIdxs, all.columnIdxs.Keys, all.generator.columnNames, all.columnIdxs)
  }

  lemma {:induction false} BloomValuesReadBack(r: BloomValuesReader, written: BloomValues, cd: ColumnData, all: BloomValues)
    requires BothAt(r, written, all) && ValidColumn(cd)
    requires GrowsTo(AppendTo(written, cd), all)
    ensures var r' := BloomValuesReader(r.bloom.(bytesRead := |written.bloom + cd.bloomFilterData|), r.values.(bytesRead := |written.values + cd.valuesData|));
            ReadBloomValues(r, Named(HeaderOf(cd, written))) == Ok(((cd.bloomFilterData, cd.valuesData), r')) &&
            BothAt(r', AppendTo(written, cd), all)
  {
    ReadsBack(r.values, written.values, cd.valuesData, all.values);
    ReadsBack(r.bloom, written.bloom, cd.bloomFilterData, all.bloom);
    if cd.valueType == Dict {
      assert written.bloom + cd.bloomFilterData == written.bloom;
      assert r.bloom.(bytesRead := |written.bloom|) == r.bloom;
    }
  }

  /** A column is found where the writer has put it. */
  lemma {:induction false} PlaceIsFound(sr: StreamReaders, sw: StreamWriters, name: Bytes, all: StreamWriters)
    requires ValidWriters(sw) && Grows(GetBloomValuesWriter(sw, name).0, all)
    requires ShardsByName(sr.columnIdxs, all.columnIdxs.Keys, all.generator.columnNames, all.columnIdxs) && |sr.shards| == |all.shards|
    ensures GetBloomValuesReader(sr, name) == Ok(GetBloomValuesWriter(sw, name).1)
  {
    ShardIsNext(sw, name);
    var (sw1, place) := GetBloomValuesWriter(sw, name);
    if name != [] {
      var id := GetColumnNameID(sw1.generator, name).1;
      assert id in all.columnIdxs && all.columnIdxs[id] == sw1.columnIdxs[id];
      assert all.generator.columnNames[id] == name;
    }
  }

  /** The header of a column as it is read, with its name. */
  function Named(ch: ColumnHeader): ColumnHeader {
    Readable(ch).(name := ch.name)
  }

  function AppendTo(bv: BloomValues, cd: ColumnData): BloomValues {
    BloomValues(bv.bloom + cd.bloomFilterData, bv.values + cd.valuesData)
  }

  ghost predicate SameHeaderReaders(a: StreamReaders, b: StreamReaders) {
    a.columnsHeaderIndex == b.columnsHeaderIndex && a.columnsHeader == b.columnsHeader && a.timestamps == b.timestamps
  }

  /** The reader of the column's shard is where the writer of the column started. */
  lemma {:induction false} ReaderIsAtColumn(sr: StreamReaders, sw: StreamWriters, cd: ColumnData, all: StreamWriters)
    requires ValidWriters(sw) && ColumnsInSync(sr, sw, all) && Grows(WriteColumn(sw, cd).0, all)
    ensures var (sw1, place) := GetBloomValuesWriter(sw, cd.name);
            HasPlace(sw1, place) && HasPlace(all, place) && HasReader(sr, place) && |sw.shards| <= |sw1.shards| <= |sw.shards| + 1 &&
            BothAt(ReaderAt(sr, place), ValuesAt(sw1, place), ValuesAt(all, place)) &&
            GrowsTo(AppendTo(ValuesAt(sw1, place), cd), ValuesAt(all, place)) &&
            ValuesAt(WriteColumn(sw, cd).0, place) == AppendTo(ValuesAt(sw1, place), cd) &&
            WriteColumn(sw, cd).1 == HeaderOf(cd, ValuesAt(sw1, place))
  {
    ShardIsNext(sw, cd.name);
    var (sw1, place) := GetBloomValuesWriter(sw, cd.name);
    if place.Shard? {
      ReaderIsAtShard(sr.shards, sw.shards, sw1.shards, all.shards, place.idx);
    }
  }

  lemma {:induction false} ReaderIsAtShard(readers: seq<BloomValuesReader>, shards: seq<BloomValues>, shards': seq<BloomValues>,
                                           all: seq<BloomValues>, idx: nat)
    requires ShardsAt(readers, shards, all) && (shards' == shards || shards' == shards + [NO_BLOOM_VALUES]) && idx < |shards'| && idx < |all|
    ensures BothAt(readers[idx], shards'[idx], all[idx])
  {
    assert ShardOrNone(shards, idx) == shards'[idx];
  }

  lemma {:induction false} ShardIsGrown(sw: StreamWriters, cd: ColumnData, all: StreamWriters)
    requires ValidWriters(sw) && Grows(WriteColumn(sw, cd).0, all)
    ensures Grows(GetBloomValuesWriter(sw, cd.name).0, all)
  {
    ShardIsNext(sw, cd.name);
    GrowsOn(GetBloomValuesWriter(sw, cd.name).0, WriteColumn(sw, cd).0, all);
  }

  lemma {:induction false} ColumnReadsBack(sr: StreamReaders, sw: StreamWriters, cd: ColumnData, all: StreamWriters) returns (sr': StreamReaders)
    requires ValidWriters(sw) && ValidColumn(cd) && ColumnsInSync(sr, sw, all) && Grows(WriteColumn(sw, cd).0, all)
    ensures ReadColumn(sr, Named(WriteColumn(sw, cd).1)) == Ok((cd, sr')) && ColumnsInSync(sr', WriteColumn(sw, cd).0, all)
    ensures SameHeaderReaders(sr, sr')
  {
    ReaderIsAtColumn(sr, sw, cd, all);
    ShardIsGrown(sw, cd, all);
    PlaceIsFound(sr, sw, cd.name, all);
    var (sw1, place) := GetBloomValuesWriter(sw, cd.name);
    var written := ValuesAt(sw1, place);
    BloomValuesReadBack(ReaderAt(sr, place), written, cd, ValuesAt(all, place));
    var r := ReadBloomValues(ReaderAt(sr, place), Named(HeaderOf(cd, written))).value.1;
    sr' := WithReader(sr, place, r);
    ShardsInSync(sr, sw, cd, all, r);
  }

  lemma {:induction false} ShardsInSync(sr: StreamReaders, sw: StreamWriters, cd: ColumnData, all: StreamWriters, r: BloomValuesReader)
    requires ValidWriters(sw) && ColumnsInSync(sr, sw, all) && Grows(WriteColumn(sw, cd).0, all)
    requires var (sw1, place) := GetBloomValuesWriter(sw, cd.name);
             HasPlace(sw1, place) && HasPlace(all, place) && HasReader(sr, place) && |sw.shards| <= |sw1.shards| <= |sw.shards| + 1 &&
             BothAt(r, AppendTo(ValuesAt(sw1, place), cd), ValuesAt(all, place))
    ensures ColumnsInSync(WithReader(sr, GetBloomValuesWriter(sw, cd.name).1, r), WriteColumn(sw, cd).0, all)
  {
    var (sw1, place) := GetBloomValuesWriter(sw, cd.name);
    NewShardAt(sr.shards, sw.shards, sw1.shards, all.shards);
    if place.Shard? {
      ShardMoves(sr.shards, sw1.shards, all.shards, place.idx, r, AppendTo(sw1.shards[place.idx], cd));
    }
  }

  lemma {:induction false} NewShardAt(readers: seq<BloomValuesReader>, shards: seq<BloomValues>, shards': seq<BloomValues>, all: seq<BloomValues>)
    requires ShardsAt(readers, shards, all) && (shards' == shards || shards' == shards + [NO_BLOOM_VALUES])
    ensures ShardsAt(readers, shards', all)
  {
    forall i | 0 <= i < |readers|
      ensures BothAt(readers[i], ShardOrNone(shards', i), all[i])
    {
      assert ShardOrNone(shards', i) == ShardOrNone(shards, i);
    }
  }

  lemma {:induction false} ShardMoves(readers: seq<BloomValuesReader>, shards: seq<BloomValues>, all: seq<BloomValues>,
                                      idx: nat, r: BloomValuesReader, bv: BloomValues)
    requires ShardsAt(readers, shards, all) && idx < |shards| && idx < |readers| && BothAt(r, bv, all[idx])
    ensures ShardsAt(readers[idx := r], shards[idx := bv], all)
  {
    forall i | 0 <= i < |readers|
      ensures BothAt(readers[idx := r][i], ShardOrNone(shards[idx := bv], i), all[i])
    {
      assert i != idx ==> ShardOrNone(shards[idx := bv], i) == ShardOrNone(shards, i);
    }
  }

  // ---------- The columns of a block ----------

  function WriteColumns(sw: StreamWriters, cds: seq<ColumnData>): (r: (StreamWriters, seq<ColumnHeader>))
    requires ValidWriters(sw)
    ensures |r.1| == |cds| && ValidWriters(r.0)
  {
    if cds == [] then (sw, [])
    else
      var (sw1, chs) := WriteColumns(sw, cds[..|cds| - 1]);
      ColumnGrows(sw1, cds[|cds| - 1]);
      var (sw', ch) := WriteColumn(sw1, cds[|cds| - 1]);
      (sw', chs + [ch])
  }

  function ReadColumns(sr: StreamReaders, chs: seq<ColumnHeader>): Result<(seq<ColumnData>, StreamReaders)> {
    if chs == [] then Ok(([], sr))
    else
      var (cds, sr1) :- ReadColumns(sr, chs[..|chs| - 1]);
      var (cd, sr') :- ReadColumn(sr1, chs[|chs| - 1]);
      Ok((cds + [cd], sr'))
  }

  lemma {:induction false} ColumnsGrow(sw: StreamWriters, cds: seq<ColumnData>)
    requires ValidWriters(sw)
    ensures Grows(sw, WriteColumns(sw, cds).0) && SameHeaderWriters(sw, WriteColumns(sw, cds).0)
    ensures (forall i :: 0 <= i < |cds| ==> ValidColumn(cds[i])) ==>
            forall i :: 0 <= i < |cds| ==> ValidColumnHeader(WriteColumns(sw, cds).1[i])
  {
    if cds != [] {
      ColumnsGrow(sw, cds[..|cds| - 1]);
      LastColumnGrows(sw, cds);
    }
  }

  lemma {:induction false} LastColumnGrows(sw: StreamWriters, cds: seq<ColumnData>)
    requires cds != [] && ValidWriters(sw)
    requires var front := cds[..|cds| - 1];
             Grows(sw, WriteColumns(sw, front).0) && SameHeaderWriters(sw, WriteColumns(sw, front).0) &&
             ((forall i :: 0 <= i < |front| ==> ValidColumn(front[i])) ==>
                forall i :: 0 <= i < |front| ==> ValidColumnHeader(WriteColumns(sw, front).1[i]))
    ensures Grows(sw, WriteColumns(sw, cds).0) && SameHeaderWriters(sw, WriteColumns(sw, cds).0)
    ensures (forall i :: 0 <= i < |cds| ==> ValidColumn(cds[i])) ==>
            forall i :: 0 <= i < |cds| ==> ValidColumnHeader(WriteColumns(sw, cds).1[i])
  {
    var front := WriteColumns(sw, cds[..|cds| - 1]);
    ColumnGrows(front.0, cds[|cds| - 1]);
    GrowsOn(sw, front.0, WriteColumns(sw, cds).0);
  }

  ghost predicate SameHeaderWriters(a: StreamWriters, b: StreamWriters) {
    a.columnsHeaderIndex == b.columnsHeaderIndex && a.columnsHeader == b.columnsHeader && a.timestamps == b.timestamps
  }

  function AllNamed(chs: seq<ColumnHeader>): (r: seq<ColumnHeader>)
    ensures |r| == |chs| && forall i :: 0 <= i < |chs| ==> r[i] == Named(chs[i])
  {
    if chs == [] then [] else [Named(chs[0])] + AllNamed(chs[1..])
  }

  lemma {:induction false} ColumnsReadBack(sr: StreamReaders, sw: StreamWriters, cds: seq<ColumnData>, all: StreamWriters) returns (sr': StreamReaders)
    requires ValidWriters(sw) && ColumnsInSync(sr, sw, all) && Grows(WriteColumns(sw, cds).0, all)
    requires forall i :: 0 <= i < |cds| ==> ValidColumn(cds[i])
    ensures ReadColumns(sr, AllNamed(WriteColumns(sw, cds).1)) == Ok((cds, sr')) && ColumnsInSync(sr', WriteColumns(sw, cds).0, all)
    ensures SameHeaderReaders(sr, sr')
  {
    if cds == [] {
      return sr;
    }
    var front, last := cds[..|cds| - 1], cds[|cds| - 1];
    assert front + [last] == cds;
    var sw1, sw2 := WriteColumns(sw, front).0, WriteColumns(sw, cds).0;
    ColumnGrows(sw1, last);
    GrowsOn(sw1, sw2, all);
    var sr1 := ColumnsReadBack(sr, sw, front, all);
    sr' := ColumnReadsBack(sr1, sw1, last, all);
    NextColumnRead(sr, WriteColumns(sw, front).1, front, sr1, WriteColumn(sw1, last).1, last, sr');
  }

  lemma {:induction false} NextColumnRead(sr: StreamReaders, chs: seq<ColumnHeader>, cds: seq<ColumnData>, sr1: StreamReaders, ch: ColumnHeader, cd: ColumnData, sr': StreamReaders)
    requires ReadColumns(sr, AllNamed(chs)) == Ok((cds, sr1)) && ReadColumn(sr1, Named(ch)) == Ok((cd, sr'))
    ensures ReadColumns(sr, AllNamed(chs + [ch])) == Ok((cds + [cd], sr'))
  {
    OneMoreNamed(chs, ch);
  }

  lemma {:induction false} OneMoreNamed(chs: seq<ColumnHeader>, ch: ColumnHeader)
    ensures var all := AllNamed(chs + [ch]); |all| == |chs| + 1 && all[..|all| - 1] == AllNamed(chs) && all[|all| - 1] == Named(ch)
  {
    var all := AllNamed(chs + [ch]);
    assert all[..|all| - 1] == AllNamed(chs);
  }

  // ---------- The header of the columns of a block ----------

  function NameIDs(g: Generator, names: seq<Bytes>): (r: (Generator, seq<nat>))
    ensures |r.1| == |names|
  {
    if names == [] then (g, [])
    else
      var (g1, ids) := NameIDs(g, names[..|names| - 1]);
      var (g', id) := GetColumnNameID(g1, names[|names| - 1]);
      (g', ids + [id])
  }

  lemma {:induction false} IDsNameColumns(g: Generator, names: seq<Bytes>)
    requires ValidGenerator(g)
    ensures var (g', ids) := NameIDs(g, names);
            ValidGenerator(g') && g.columnNames <= g'.columnNames &&
            forall i :: 0 <= i < |names| ==> ids[i] < |g'.columnNames| && g'.columnNames[ids[i]] == names[i]
  {
    if names != [] {
      IDsNameColumns(g, names[..|names| - 1]);
      IDNamesColumn(NameIDs(g, names[..|names| - 1]).0, names[|names| - 1]);
    }
  }

  function ColumnOffsets(chs: seq<ColumnHeader>, offset: nat): (r: seq<nat>)
    ensures |r| == |chs|
  {
    if chs == [] then [] else [offset] + ColumnOffsets(chs[1..], offset + |MarshalColumnHeader(chs[0])|)
  }

  function ConstOffsets(ccs: seq<Field>, offset: nat): (r: seq<nat>)
    ensures |r| == |ccs|
  {
    if ccs == [] then [] else [offset] + ConstOffsets(ccs[1..], offset + |MarshalBytes(ccs[0].value)|)
  }

  function Refs(ids: seq<nat>, offsets: seq<nat>): (r: seq<ColumnHeaderRef>)
    requires |ids| == |offsets|
    ensures |r| == |ids| && forall i :: 0 <= i < |ids| ==> r[i].columnNameID == ids[i]
  {
    if ids == [] then [] else [ColumnHeaderRef(ids[0], offsets[0])] + Refs(ids[1..], offsets[1..])
  }

  function ColumnNamesOf(chs: seq<ColumnHeader>): (r: seq<Bytes>)
    ensures |r| == |chs| && forall i :: 0 <= i < |chs| ==> r[i] == chs[i].name
  {
    if chs == [] then [] else [chs[0].name] + ColumnNamesOf(chs[1..])
  }

  function FieldNames(ccs: seq<Field>): (r: seq<Bytes>)
    ensures |r| == |ccs| && forall i :: 0 <= i < |ccs| ==> r[i] == ccs[i].name
  {
    if ccs == [] then [] else [ccs[0].name] + FieldNames(ccs[1..])
  }

  datatype MarshaledHeader = MarshaledHeader(generator: Generator, index: Bytes, data: Bytes)

  /** The header of the columns, the ids of their names, and the generator that has given these ids. */
  function MarshalHeader(g: Generator, chs: seq<ColumnHeader>, ccs: seq<Field>): MarshaledHeader {
    var (g', ids, constIDs) := HeaderIDs(g, chs, ccs);
    MarshaledHeader(g', MarshalColumnsHeaderIndex(HeaderRefs(ids, chs), ConstRefs(constIDs, chs, ccs)), MarshalColumnsHeader(chs, ccs))
  }

  function HeaderRefs(ids: seq<nat>, chs: seq<ColumnHeader>): (r: seq<ColumnHeaderRef>)
    requires |ids| == |chs|
    ensures |r| == |ids| && forall i :: 0 <= i < |ids| ==> r[i].columnNameID == ids[i]
  {
    Refs(ids, ColumnOffsets(chs, |MarshalVarUint64(|chs|)|))
  }

  function ConstRefs(ids: seq<nat>, chs: seq<ColumnHeader>, ccs: seq<Field>): (r: seq<ColumnHeaderRef>)
    requires |ids| == |ccs|
    ensures |r| == |ids| && forall i :: 0 <= i < |ids| ==> r[i].columnNameID == ids[i]
  {
    Refs(ids, ConstOffsets(ccs, |MarshalVarUint64(|chs|)| + |MarshalColumnHeaders(chs)| + |MarshalVarUint64(|ccs|)|))
  }

  /** The headers of the columns with their names, and the const columns. */
  function ReadHeader(data: Bytes, index: Bytes, columnNames: seq<Bytes>): Result<(seq<ColumnHeader>, seq<Field>)> {
    var (chs, values) :- UnmarshalColumnsHeader(data);
    var (refs, constRefs) :- UnmarshalColumnsHeaderIndex(index);
    SetColumnNames(chs, values, refs, constRefs, columnNames)
  }

  /** The ids of the names of the columns and of the const columns, with the generator that has given them. */
  function HeaderIDs(g: Generator, chs: seq<ColumnHeader>, ccs: seq<Field>): (r: (Generator, seq<nat>, seq<nat>))
    ensures |r.1| == |chs| && |r.2| == |ccs|
  {
    var (g1, ids) := NameIDs(g, ColumnNamesOf(chs));
    var (g', constIDs) := NameIDs(g1, FieldNames(ccs));
    (g', ids, constIDs)
  }

  lemma {:induction false} IDsNameHeader(g: Generator, chs: seq<ColumnHeader>, ccs: seq<Field>)
    requires ValidGenerator(g)
    ensures var (g', ids, constIDs) := HeaderIDs(g, chs, ccs);
            ValidGenerator(g') && g.columnNames <= g'.columnNames &&
            (forall i :: 0 <= i < |chs| ==> ids[i] < |g'.columnNames| && g'.columnNames[ids[i]] == chs[i].name) &&
            forall i :: 0 <= i < |ccs| ==> constIDs[i] < |g'.columnNames| && g'.columnNames[constIDs[i]] == ccs[i].name
  {
    var (g1, ids) := NameIDs(g, ColumnNamesOf(chs));
    IDsNameColumns(g, ColumnNamesOf(chs));
    IDsNameColumns(g1, FieldNames(ccs));
  }

  /** The names are found again with whatever names the part has got later. */
  lemma {:induction false} HeaderReadsBack(g: Generator, chs: seq<ColumnHeader>, ccs: seq<Field>, columnNames: seq<Bytes>)
    requires ValidGenerator(g) && MarshalHeader(g, chs, ccs).generator.columnNames <= columnNames
    requires forall i :: 0 <= i < |chs| ==> ValidColumnHeader(chs[i])
    requires |chs| + |ccs| <= MAX_COLUMNS_PER_BLOCK
    ensures var h := MarshalHeader(g, chs, ccs);
            ValidGenerator(h.generator) && g.columnNames <= h.generator.columnNames &&
            ReadHeader(h.data, h.index, columnNames) == Ok((AllNamed(chs), ccs))
  {
    var (g', ids, constIDs) := HeaderIDs(g, chs, ccs);
    IDsNameHeader(g, chs, ccs);
    HeaderOfIDsReadsBack(g', ids, constIDs, chs, ccs, columnNames);
  }

  lemma {:induction false} HeaderOfIDsReadsBack(g: Generator, ids: seq<nat>, constIDs: seq<nat>, chs: seq<ColumnHeader>, ccs: seq<Field>, columnNames: seq<Bytes>)
    requires g.columnNames <= columnNames && |ids| == |chs| && |constIDs| == |ccs|
    requires forall i :: 0 <= i < |chs| ==> ValidColumnHeader(chs[i]) && ids[i] < |g.columnNames| && g.columnNames[ids[i]] == chs[i].name
    requires forall i :: 0 <= i < |ccs| ==> constIDs[i] < |g.columnNames| && g.columnNames[constIDs[i]] == ccs[i].name
    requires |chs| + |ccs| <= MAX_COLUMNS_PER_BLOCK
    ensures ReadHeader(MarshalColumnsHeader(chs, ccs), MarshalColumnsHeaderIndex(HeaderRefs(ids, chs), ConstRefs(constIDs, chs, ccs)), columnNames)
            == Ok((AllNamed(chs), ccs))
  {
    var refs, constRefs := HeaderRefs(ids, chs), ConstRefs(constIDs, chs, ccs);
    ColumnsHeaderRoundTrip(chs, ccs);
    ColumnsHeaderIndexRoundTrip(refs, constRefs);
    NamesAreSet(chs, ccs, refs, constRefs, columnNames);
    PartsAreRead(MarshalColumnsHeader(chs, ccs), MarshalColumnsHeaderIndex(refs, constRefs), columnNames,
                 AllReadable(chs), Values(ccs), refs, constRefs);
  }

  lemma {:induction false} PartsAreRead(data: Bytes, index: Bytes, columnNames: seq<Bytes>,
                     chs: seq<ColumnHeader>, values: seq<Bytes>, refs: seq<ColumnHeaderRef>, constRefs: seq<ColumnHeaderRef>)
    requires UnmarshalColumnsHeader(data) == Ok((chs, values)) && UnmarshalColumnsHeaderIndex(index) == Ok((refs, constRefs))
    ensures ReadHeader(data, index, columnNames) == SetColumnNames(chs, values, refs, constRefs, columnNames)
  {
  }

  lemma {:induction false} NamesAreSet(chs: seq<ColumnHeader>, ccs: seq<Field>, refs: seq<ColumnHeaderRef>, constRefs: seq<ColumnHeaderRef>, columnNames: seq<Bytes>)
    requires |refs| == |chs| && |constRefs| == |ccs|
    requires forall i :: 0 <= i < |refs| ==> refs[i].columnNameID < |columnNames| && columnNames[refs[i].columnNameID] == chs[i].name
    requires forall i :: 0 <= i < |constRefs| ==> constRefs[i].columnNameID < |columnNames| && columnNames[constRefs[i].columnNameID] == ccs[i].name
    ensures SetColumnNames(AllReadable(chs), Values(ccs), refs, constRefs, columnNames) == Ok((AllNamed(chs), ccs))
  {
    var (chs', ccs') := SetColumnNames(AllReadable(chs), Values(ccs), refs, constRefs, columnNames).value;
    assert chs' == AllNamed(chs);
    assert ccs' == ccs;
  }

  // ---------- Blocks ----------

  function WriteTimestamps(sw: StreamWriters, td: TimestampsData): (StreamWriters, TimestampsHeader) {
    (sw.(timestamps := sw.timestamps + td.data),
     TimestampsHeader(|sw.timestamps|, |td.data|, td.minTimestamp, td.maxTimestamp, td.marshalType))
  }

  function WriteHeader(sw: StreamWriters, chs: seq<ColumnHeader>, ccs: seq<Field>): StreamWriters {
    var h := MarshalHeader(sw.generator, chs, ccs);
    sw.(generator := h.generator, columnsHeaderIndex := sw.columnsHeaderIndex + h.index, columnsHeader := sw.columnsHeader + h.data)
  }

  function WriteBlock(sw: StreamWriters, bd: BlockData): (r: (StreamWriters, BlockHeader))
    requires ValidWriters(sw)
  {
    var (sw1, th) := WriteTimestamps(sw, bd.timestampsData);
    var (sw2, chs) := WriteColumns(sw1, bd.columnsData);
    var h := MarshalHeader(sw2.generator, chs, bd.constColumns);
    (WriteHeader(sw2, chs, bd.constColumns),
     BlockHeader(bd.streamID, bd.uncompressedSizeBytes, bd.rowsCount, th, |sw2.columnsHeaderIndex|, |h.index|, |sw2.columnsHeader|, |h.data|))
  }

  function ReadTimestamps(sr: StreamReaders, th: TimestampsHeader): Result<(TimestampsData, StreamReaders)> {
    var (data, r) :- ReadAt(sr.timestamps, th.blockOffset, th.blockSize);
    Ok((TimestampsData(data, th.marshalType, th.minTimestamp, th.maxTimestamp), sr.(timestamps := r)))
  }

  function ReadHeaderOf(sr: StreamReaders, bh: BlockHeader): Result<((seq<ColumnHeader>, seq<Field>), StreamReaders)> {
    var (data, r) :- ReadAt(sr.columnsHeader, bh.columnsHeaderOffset, bh.columnsHeaderSize);
    if bh.columnsHeaderIndexSize > MAX_BLOCK_SIZE then Err
    else
      var (index, rIndex) :- ReadFull(sr.columnsHeaderIndex, bh.columnsHeaderIndexSize);
      var header :- ReadHeader(data, index, sr.columnNames);
      Ok((header, sr.(columnsHeader := r, columnsHeaderIndex := rIndex)))
  }

  function ReadBlock(sr: StreamReaders, bh: BlockHeader): Result<(BlockData, StreamReaders)> {
    var (td, sr1) :- ReadTimestamps(sr, bh.timestampsHeader);
    var (header, sr2) :- ReadHeaderOf(sr1, bh);
    var (cds, sr') :- ReadColumns(sr2, header.0);
    Ok((BlockData(bh.streamID, bh.uncompressedSizeBytes, bh.rowsCount, td, cds, header.1), sr'))
  }

  /** The reader of the finished files has read what had been written when the writers were at sw. */
  ghost predicate InSync(sr: StreamReaders, sw: StreamWriters, all: StreamWriters) {
    ColumnsInSync(sr, sw, all) && HeadersInSync(sr, sw, all)
  }

  ghost predicate HeadersInSync(sr: StreamReaders, sw: StreamWriters, all: StreamWriters) {
    At(sr.timestamps, sw.timestamps, all.timestamps) &&
    At(sr.columnsHeaderIndex, sw.columnsHeaderIndex, all.columnsHeaderIndex) &&
    At(sr.columnsHeader, sw.columnsHeader, all.columnsHeader)
  }

  /** What the writer checks before it writes the headers, and that the files are not too big for offsets of 64 bits. */
  ghost predicate FitsInFiles(bh: BlockHeader) {
    bh.columnsHeaderIndexSize <= MAX_BLOCK_SIZE && bh.columnsHeaderSize <= MAX_BLOCK_SIZE && bh.timestampsHeader.blockOffset < UINT64_SIZE
  }

  lemma {:induction false} BlockGrows(sw: StreamWriters, bd: BlockData)
    requires ValidWriters(sw)
    ensures var (sw', bh) := WriteBlock(sw, bd);
            ValidWriters(sw') && Grows(sw, sw')
  {
    var sw1 := WriteTimestamps(sw, bd.timestampsData).0;
    var (sw2, chs) := WriteColumns(sw1, bd.columnsData);
    assert Grows(sw, sw1);
    ColumnsGrow(sw1, bd.columnsData);
    GrowsOn(sw, sw1, sw2);
    HeaderGrows(sw2, chs, bd.constColumns);
    GrowsOn(sw, sw2, WriteHeader(sw2, chs, bd.constColumns));
  }

  lemma {:induction false} HeaderGrows(sw: StreamWriters, chs: seq<ColumnHeader>, ccs: seq<Field>)
    requires ValidWriters(sw)
    ensures ValidWriters(WriteHeader(sw, chs, ccs)) && Grows(sw, WriteHeader(sw, chs, ccs))
  {
    IDsNameHeader(sw.generator, chs, ccs);
  }

  lemma {:induction false} TimestampsReadBack(sr: StreamReaders, sw: StreamWriters, td: TimestampsData, all: StreamWriters) returns (sr': StreamReaders)
    requires HeadersInSync(sr, sw, all) && ColumnsInSync(sr, sw, all) && |td.data| <= MAX_BLOCK_SIZE && Grows(WriteTimestamps(sw, td).0, all)
    ensures ReadTimestamps(sr, WriteTimestamps(sw, td).1) == Ok((td, sr'))
    ensures HeadersInSync(sr', WriteTimestamps(sw, td).0, all) && ColumnsInSync(sr', WriteTimestamps(sw, td).0, all)
  {
    ReadsBack(sr.timestamps, sw.timestamps, td.data, all.timestamps);
    sr' := ReadTimestamps(sr, WriteTimestamps(sw, td).1).value.1;
  }

  lemma {:induction false} HeaderOfReadsBack(sr: StreamReaders, sw1: StreamWriters, sw2: StreamWriters, chs: seq<ColumnHeader>, ccs: seq<Field>,
                          bh: BlockHeader, all: StreamWriters) returns (sr': StreamReaders)
    requires HeadersInSync(sr, sw1, all) && ColumnsInSync(sr, sw1, all) && SameHeaderWriters(sw1, sw2) && ValidWriters(sw2)
    requires Grows(WriteHeader(sw2, chs, ccs), all) && FitsInFiles(bh) && |chs| + |ccs| <= MAX_COLUMNS_PER_BLOCK
    requires forall i :: 0 <= i < |chs| ==> ValidColumnHeader(chs[i])
    requires var h := MarshalHeader(sw2.generator, chs, ccs);
             bh.columnsHeaderOffset == |sw2.columnsHeader| && bh.columnsHeaderSize == |h.data| && bh.columnsHeaderIndexSize == |h.index|
    ensures ReadHeaderOf(sr, bh) == Ok(((AllNamed(chs), ccs), sr'))
    ensures ColumnsInSync(sr', sw1, all) && sr'.timestamps == sr.timestamps
    ensures At(sr'.columnsHeaderIndex, WriteHeader(sw2, chs, ccs).columnsHeaderIndex, all.columnsHeaderIndex)
    ensures At(sr'.columnsHeader, WriteHeader(sw2, chs, ccs).columnsHeader, all.columnsHeader)
  {
    var h := MarshalHeader(sw2.generator, chs, ccs);
    ReadsBack(sr.columnsHeader, sw2.columnsHeader, h.data, all.columnsHeader);
    ReadsBack(sr.columnsHeaderIndex, sw2.columnsHeaderIndex, h.index, all.columnsHeaderIndex);
    HeaderReadsBack(sw2.generator, chs, ccs, sr.columnNames);
    sr' := sr.(columnsHeader := sr.columnsHeader.(bytesRead := |sw2.columnsHeader + h.data|),
               columnsHeaderIndex := sr.columnsHeaderIndex.(bytesRead := |sw2.columnsHeaderIndex + h.index|));
  }

  /** A block is read back as it was written, whatever has been written before and after it. */
  lemma {:induction false} BlockReadsBack(sr: StreamReaders, sw: StreamWriters, bd: BlockData, all: StreamWriters) returns (sr': StreamReaders)
    requires ValidWriters(sw) && ValidBlock(bd) && InSync(sr, sw, all)
    requires Grows(WriteBlock(sw, bd).0, all) && FitsInFiles(WriteBlock(sw, bd).1)
    ensures ReadBlock(sr, WriteBlock(sw, bd).1) == Ok((bd, sr')) && InSync(sr', WriteBlock(sw, bd).0, all)
  {
    var (sw1, th) := WriteTimestamps(sw, bd.timestampsData);
    var (sw2, chs) := WriteColumns(sw1, bd.columnsData);
    var sw3 := WriteHeader(sw2, chs, bd.constColumns);
    sr' := StepsReadBack(sr, sw, sw1, sw2, sw3, th, chs, bd, WriteBlock(sw, bd).1, all);
  }

  lemma {:induction false} StepsReadBack(sr: StreamReaders, sw: StreamWriters, sw1: StreamWriters, sw2: StreamWriters, sw3: StreamWriters,
      th: TimestampsHeader, chs: seq<ColumnHeader>, bd: BlockData, bh: BlockHeader, all: StreamWriters) returns (sr': StreamReaders)
    requires ValidWriters(sw) && ValidWriters(sw1) && ValidBlock(bd) && InSync(sr, sw, all)
    requires WriteTimestamps(sw, bd.timestampsData) == (sw1, th) && WriteColumns(sw1, bd.columnsData) == (sw2, chs)
    requires WriteHeader(sw2, chs, bd.constColumns) == sw3 && Grows(sw3, all) && FitsInFiles(bh)
    requires bh.streamID == bd.streamID && bh.uncompressedSizeBytes == bd.uncompressedSizeBytes && bh.rowsCount == bd.rowsCount && bh.timestampsHeader == th
    requires var h := MarshalHeader(sw2.generator, chs, bd.constColumns);
             bh.columnsHeaderOffset == |sw2.columnsHeader| && bh.columnsHeaderSize == |h.data| && bh.columnsHeaderIndexSize == |h.index|
    ensures ReadBlock(sr, bh) == Ok((bd, sr')) && InSync(sr', sw3, all)
  {
    ColumnsGrow(sw1, bd.columnsData);
    HeaderGrows(sw2, chs, bd.constColumns);
    GrowsOn(sw2, sw3, all);
    GrowsOn(sw1, sw2, all);
    var sr1 := TimestampsReadBack(sr, sw, bd.timestampsData, all);
    var sr2 := HeaderOfReadsBack(sr1, sw1, sw2, chs, bd.constColumns, bh, all);
    sr' := ColumnsReadBack(sr2, sw1, bd.columnsData, all);
    ColumnsAreWritten(sr', sw2, sw3, all);
    assert |chs| == |bd.columnsData|;
    PiecesAreRead(sr, sr1, sr2, sr', bh, bd.timestampsData, AllNamed(chs), bd.constColumns, bd.columnsData);
  }

  lemma {:induction false} PiecesAreRead(sr: StreamReaders, sr1: StreamReaders, sr2: StreamReaders, sr3: StreamReaders, bh: BlockHeader,
      td: TimestampsData, chs: seq<ColumnHeader>, ccs: seq<Field>, cds: seq<ColumnData>)
    requires ReadTimestamps(sr, bh.timestampsHeader) == Ok((td, sr1)) && ReadHeaderOf(sr1, bh) == Ok(((chs, ccs), sr2))
    requires ReadColumns(sr2, chs) == Ok((cds, sr3))
    ensures ReadBlock(sr, bh) == Ok((BlockData(bh.streamID, bh.uncompressedSizeBytes, bh.rowsCount, td, cds, ccs), sr3))
  {
  }

  lemma {:induction false} ColumnsAreWritten(sr: StreamReaders, sw: StreamWriters, sw': StreamWriters, all: StreamWriters)
    requires ColumnsInSync(sr, sw, all) && Grows(sw', all) && sw.message == sw'.message && sw.shards == sw'.shards
    ensures ColumnsInSync(sr, sw', all)
  {
  }

  /** The header that has been written lets a reader recover the block, whatever comes before and after it. */
  ghost predicate Recovers(sw: StreamWriters, bd: BlockData, sw': StreamWriters, bh: BlockHeader) {
    forall sr, all :: InSync(sr, sw, all) && Grows(sw', all) ==> ReadsAs(sr, bh, bd, sw', all)
  }

  ghost predicate ReadsAs(sr: StreamReaders, bh: BlockHeader, bd: BlockData, sw': StreamWriters, all: StreamWriters) {
    ReadBlock(sr, bh).Ok? && ReadBlock(sr, bh).value.0 == bd && InSync(ReadBlock(sr, bh).value.1, sw', all)
  }

  lemma {:induction false} WrittenBlockIsRecovered(sw: StreamWriters, bd: BlockData)
    requires ValidWriters(sw) && ValidBlock(bd) && FitsInFiles(WriteBlock(sw, bd).1)
    ensures Recovers(sw, bd, WriteBlock(sw, bd).0, WriteBlock(sw, bd).1)
  {
    var (sw', bh) := WriteBlock(sw, bd);
    forall sr, all | InSync(sr, sw, all) && Grows(sw', all)
      ensures ReadsAs(sr, bh, bd, sw', all)
    {
      var sr' := BlockReadsBack(sr, sw, bd, all);
    }
  }
}
