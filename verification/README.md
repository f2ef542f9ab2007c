# VictoriaLogs storage, modelled and proved in Dafny

The storage engine of VictoriaLogs (`lib/logstorage`) keeps log entries in parts. Entries arrive in memory, are
flushed to files, are merged in the background, and are found again through stream indexes, bloom filters and time
ranges. This project models seven of its algorithms and proves what they promise:

- **Life of parts** (`PartLifecycle`, `Datadb`, `DatadbSteps`, `PartSelection`): claims, reference counts, swaps under the
  lock, `parts.json`, deletion, crashes and restarts. `PartLifecycle` is a state machine over the sections that run under the
  lock and over file system operations; its theorems hold for every interleaving with crashes anywhere. `Datadb` has the
  lists and the part wrappers as classes, and `DatadbSteps` shows that their methods take the steps of the state machine.
- **Blocks** (`LogEntries`, `Blocks`, `InmemoryPart`, `BlockMerge`, `PartMerges`): rows become columns and rows again, are cut into
  blocks, and the merger combines sorted streams of packed blocks, which `PartMerges` reads from the files of parts.
- **Part format** (`StringsBlock`, `PartHeaders`, `ColumnNames`, `PartFiles`, `PartStreams`, `PartReaders`, `PartChecks`): from the
  widths of encoded numbers up to reading a whole part back, and what a part of any bytes holds that can be read.
- **Filters** (`Phrases`, `Tokens`, `Bitmaps`, `BloomFilters`, `HashTokenizers`, `Filters`, `BlockSearch`): blocks are pruned by
  tokens and bitmaps are narrowed in place; the result agrees with matching row by row.
- **Stream index** (`RowGroups`, `TagRows`, `TagValues`, `StreamIndex`, `IndexMerges`): rows are merged inside the buffer they are read from, and tag
  filters are evaluated as set algebra over them.
- **Last rows** (`LastN`, `LastNExact`): the newest rows through count-limited queries, and exactly when the search is right
  although it gives up.
- **Hit counters** (`HitsMaps`): counters by key that switch to shards and are merged.

Code that changes state is a class or a method with loops, proved against a specification function or a predicate over
values; lemmas relate these to each other. Where the storage panics, a method returns `false` or an error, and its
contract says exactly when. `Sorting` and `BigEndian` stand for the sort package and for fixed-width integers; `Maps` has maps given by functions.

`dafny verify dfyconfig.toml` verifies all of it. Nothing here executes the storage.

## Model

| member | source | states |
|---|---|---|
| PartLifecycle.StepKeeps | lib/logstorage/datadb.go:489-632 | Every step of ingestion, claiming, writing, swapping, dropping, releasing, reading, closing, crashing and reopening keeps the invariant (exclusive claims, exact reference counts, complete listed directories, disjoint rows, deadlines), from every state that has it; so no consistency panic is reachable |
| PartLifecycle.RunIsSafe | lib/logstorage/datadb.go:221-305 | The invariant holds after every prefix of every interleaving that starts with an empty directory; in particular the storage has not panicked |
| PartLifecycle.StepKeepsRows | lib/logstorage/datadb.go:1023-1077 | Every step leaves the rows that queries see unchanged, except ingestion, which adds exactly the new ones; rows in listed files stay in listed files |
| PartLifecycle.OnceDurable | lib/logstorage/datadb.go:1290-1335 | Over whole runs with crashes anywhere, a row that a restart would find is found by every later restart |
| PartLifecycle.DurableRowIsServedOnce | lib/logstorage/datadb.go:170-219 | After a row has become durable, a running storage has it in exactly one listed part, which is a file, whatever merges, crashes and restarts came between |
| PartLifecycle.IngestedRowIsServedOnce | lib/logstorage/datadb.go:813-827 | While the storage stays up, every ingested row is in exactly one listed part, durable or not |
| PartLifecycle.ListedPartIsSafe | lib/logstorage/datadb.go:432-458 | A listed part has one reference more than it has readers, is not marked for deletion, is claimed if and only if exactly one merge has it as a source, and its directory is complete and named in parts.json |
| PartLifecycle.HeldPartIsReadable | lib/logstorage/datadb.go:135-161 | A part held by a query can be read to its end, even after it was merged away |
| PartLifecycle.DeadlineIsKept | lib/logstorage/datadb.go:1132-1140 | A row in memory is flushed no later than promised at its ingestion, however often its part was merged in memory |
| PartLifecycle.CleanShutdown | lib/logstorage/datadb.go:1233-1274 | Closing flushes everything: exactly the rows that queries saw are durable afterwards |
| PartLifecycle.StartShowsDurable | lib/logstorage/datadb.go:1340-1363 | Opening succeeds after every run and shows exactly the durable rows, with the leftovers of unfinished merges removed |
| Datadb.Datadb.SwapSrcWithDstParts | lib/logstorage/datadb.go:1023-1077 | Replaces exactly the sources by the result on the three lists, in order, names exactly the listed files in parts.json, drops one reference of each source and deletes those without readers; it fails if and only if a source is repeated or not listed |
| Datadb.GetPartsToMergeLocked | lib/logstorage/datadb.go:432-450 | Claims the best merge among the parts without a claim, marks exactly these, and claims nothing if and only if no merge is worth it |
| Datadb.UnclaimedCount | lib/logstorage/datadb.go:432-450 | The search looks at all parts without a claim and at no others |
| Datadb.ClaimForFlush | lib/logstorage/datadb.go:291-305 | Claims exactly the parts in memory that have no claim and are due (all of them at the end) |
| Datadb.ReleasePartsToMerge | lib/logstorage/datadb.go:1157-1166 | Takes the claims back; fails if and only if a part is repeated or has no claim |
| Datadb.GetFlushToDiskDeadline | lib/logstorage/datadb.go:1132-1140 | The minimum of the deadlines of the sources in memory and the given one |
| Datadb.GetDstPartType | lib/logstorage/datadb.go:663-677 | A merge writes a big part if and only if its sources are over the limit for small parts, and a part in memory if and only if it is not final, all sources are in memory and they are within both limits |
| DatadbSteps.MustOpenDatadb | lib/logstorage/datadb.go:163-219 | Opening an empty directory gives lists that show the state after the first step |
| DatadbSteps.ClaimForMerge | lib/logstorage/datadb.go:363-450 | On the code-shaped lists, claiming for a merge is one claim step of the protocol from a reachable state to a reachable state that again shows the lists and parts |
| DatadbSteps.ClaimForFlush | lib/logstorage/datadb.go:291-322 | A flush claims exactly the parts that are due and cuts them into groups, each the best merge of the parts that the groups before it leave; this is one claim step for all its merges, each of which works on one group and writes a file |
| DatadbSteps.ClaimForClose | lib/logstorage/datadb.go:1233-1252 | When the workers have stopped, claiming everything in memory in such groups is the step that starts closing |
| DatadbSteps.SwapSrcWithDstParts | lib/logstorage/datadb.go:489-632 | For the sources of a merge of the protocol, swapping on the lists never fails and is the swap step followed by one drop step per source |
| DatadbSteps.ReleasePartsToMerge | lib/logstorage/datadb.go:1157-1166 | For a finished merge, releasing never fails and is the release step |
| DatadbSteps.AcquirePart | lib/logstorage/datadb.go:135-137 | Taking a reference to a listed part is the step with which a query takes a part |
| DatadbSteps.ReleasePart | lib/logstorage/datadb.go:139-161 | Giving it back is the step of the protocol; the part was open until then |
| DatadbSteps.NamesAgree | lib/logstorage/datadb.go:1276-1297 | In every reachable state the names stored by the lists are those from which the protocol recovers |
| DatadbSteps.LeadIsRun | lib/logstorage/datadb.go:221-305 | Steps taken by the lists extend a run of the protocol, so its theorems apply to them |
| DatadbSteps.ReachableHasSteps | lib/logstorage/datadb.go:221-305 | A reachable state is one to which steps lead from an empty directory |
| PartSelection.AppendPartsToMerge | lib/logstorage/datadb.go:1366-1437 | The pruned search over the parts that are not too big, sorted by size and age, returns the best admissible window of 8 to 15 parts whose ratio of output to biggest input is at least 7.5, or nothing if no window of up to 15 parts reaches that; of equally good windows the longest and then the one with the biggest parts wins |
| PartSelection.OnlyOneChoice | lib/logstorage/datadb.go:1388-1424 | There is only one such window, and none if no window reaches the minimum |
| Datadb.GetPartsForOptimalMerge | lib/logstorage/datadb.go:327-347 | Takes the best merge, or all parts if no merge pays off, and leaves all others, none lost or repeated; a merge that leaves others has 8 to 15 parts |
| Datadb.MustMergePartsToFiles | lib/logstorage/datadb.go:307-322 | Flushing forms non-empty groups that hold every part exactly once; each is the best merge of the parts that the groups before it leave |
| PartSelection.RewritesAreFew | lib/logstorage/datadb.go:1366-1424 | When merged sizes add up, a row rewritten k times by chosen merges is in a part at least 7.5^k times as big as its first one |
| BlockMerge.MustMergeBlockStreams | lib/logstorage/block_stream_merger.go:22-42 | For any readers of ordered blocks, the written blocks are ordered, sorted by time, below the size bound, and hold per stream exactly the rows of the readers up to rows without fields; of two neighbouring blocks of a stream the first has reached 2 MiB or both together 4 MiB, no stream gets bigger, and a stream of less than 2 MiB ends up in at most one block; the merger panics if and only if a reader starts with a block of the zero stream before time zero |
| BlockMerge.SmallStreamIsOneBlock | lib/logstorage/block_stream_merger.go:183-206 | Where no two neighbouring blocks of a stream fit together, a stream of less than 2 MiB has at most one block |
| BlockMerge.BlockStreamMerger.MustWriteBlock | lib/logstorage/block_stream_merger.go:183-240 | In every state the order checks on the next block hold, all four branches take over exactly its rows, keep what is pending small and in order, and leave no two blocks of a stream apart that fit together; with nothing pending a full block is written as it is |
| BlockMerge.BlockStreamMerger.MustMergeRows | lib/logstorage/block_stream_merger.go:278-322 | Unpacking a pending block and merging rows by time keeps the taken rows; rows that have become too big are written |
| BlockMerge.BlockStreamMerger.MustFlushRows | lib/logstorage/block_stream_merger.go:341-348 | Writes what is pending in order and loses only rows without fields |
| BlockMerge.BlockStreamMerger.MustWriteBlockData | lib/logstorage/block_stream_merger.go:252-275 | Passes a big block through packed, or keeps it pending; nothing may be pending before |
| BlockMerge.BlockStreamWriter.MustWriteBlockInternal | lib/logstorage/block_stream_writer.go:402-450 | Accepts a block if and only if it is not before the last one in (stream, first timestamp) order |
| BlockMerge.NextBlock | lib/logstorage/block_stream_reader.go:430-478 | The heap of readers hands out the blocks of all readers in order; with the handed-out block the remaining rows are the former ones |
| LogEntries.MergeRows | lib/logstorage/rows.go:302-321 | Merging two row lists sorted by time gives a sorted permutation of both |
| PartMerges.PartIsMergeable | lib/logstorage/block_stream_reader.go:430-478 | The blocks of a written part are in the order the merger demands, and no reader of it panics |
| PartMerges.MergeParts | lib/logstorage/datadb.go:489-560 | Reading written parts from their files and merging them never fails, and gives ordered blocks with the rows of the parts, up to rows without fields; small blocks are joined as by the merger |
| InmemoryPart.MustInitFromRows | lib/logstorage/inmemory_part.go:71-107 | Freshly ingested rows become ordered blocks per stream that hold exactly these rows; a block ends at the row that makes it 2 MiB or with its stream, and nowhere else; the writer panics if and only if a row of the zero stream is older than time zero |
| Blocks.Block.MustInitFromRows | lib/logstorage/block.go:202-320 | Both the fast and the general path store every row up to the column limit: for each row and name, the columns give the value of the last field with that name, const columns are exactly the storable constant ones, and both are sorted by name; a single row with repeated names is stored field by field, which is no block of any rows. It panics if and only if the timestamps are unsorted, the lengths differ, or same-named rows have too many fields |
| Blocks.LatestOfDistinct | lib/logstorage/block.go:295-300 | The stored rows have distinct names, and are the given ones if these have |
| Blocks.Block.AppendRowsTo | lib/logstorage/block.go:486-522 | Reading the columns back gives every row its fields, timestamp and estimated size again: the round trip of the transposition |
| Blocks.Block.UncompressedSizeBytes | lib/logstorage/block.go:48-80 | The size is the sum of the estimated JSON sizes of the rows plus that of the columns without values; it is that sum if and only if no name is empty in all rows |
| Blocks.NoEmptyName | lib/logstorage/log_rows.go:489-569 | Rows as they are ingested, without empty values, have no such name |
| Blocks.AllRowsFit | lib/logstorage/block.go:213-266 | All rows are kept when the field names together with the widest row stay within 2000 columns |
| Blocks.AreSameFieldsInRows | lib/logstorage/block.go:524-556 | True if and only if all rows have the same names in the same order |
| LogEntries.EstimatedJSONRowLen | lib/logstorage/log_rows.go:686-707 | The estimated size is that of the non-empty fields, with the default message name counted like the empty one |
| LogEntries.RowLenIsLength | lib/logstorage/log_rows.go:682-714 | The estimate is the length of the row as a line of JSON with the longest timestamp and without escapes |
| PartReaders.ReadPart | lib/logstorage/block_stream_reader.go:430-528 | Reading a part written by the writer gives exactly the written blocks in order, without any error or panic, and all totals equal the part header; for every compression that can be inverted |
| PartChecks.ReadAnyPart | lib/logstorage/block_stream_reader.go:338-529 | Whatever the bytes of a part are: if reading it to its end does not panic, its blocks are ordered by stream and time, lie in the time range of the part, and add up to the sizes, rows and blocks in its header |
| PartChecks.BlockIsChecked | lib/logstorage/block_stream_reader.go:430-529 | Every call of the reader keeps that for what has been read, and at the end all bytes have been read |
| PartChecks.HeadersAreChecked | lib/logstorage/block_header.go:83-215 | The block headers of any index block that can be read are ordered by stream and time, and promise no more rows and bytes than a block may have |
| PartChecks.ColumnsAreLimited | lib/logstorage/block_header.go:489-550 | No columns header that can be read has more than 2000 columns |
| PartStreams.CompressionExists | lib/logstorage/index_block_header.go:42-78 | What is demanded of compression can be met |
| PartReaders.BlockStreamReader.NextBlock | lib/logstorage/block_stream_reader.go:430-478 | One call of the reader is one turn of the reading function, with its errors for misordered blocks and wrong totals |
| PartReaders.NextBlockIs | lib/logstorage/block_stream_reader.go:480-528 | After k blocks of a written part, the reader returns block k, or the end if and only if there is none |
| PartReaders.PartIsOpened | lib/logstorage/block_stream_reader.go:338-423 | A written part can be opened: its metaindex, column names and shard indexes are read back |
| PartReaders.TimeRangesCover | lib/logstorage/index_block_header.go:42-53 | The time range of every index block covers its blocks and lies within that of the part |
| PartStreams.BlockStreamWriter.Finalize | lib/logstorage/block_stream_writer.go:452-492 | After any accepted blocks, the files hold exactly their blocks, headers, names and totals; index blocks hold at most 256 KiB of headers, and each is cut at the header that makes it more than 128 KiB, except the last one |
| PartStreams.BlockStreamWriter.MustWriteBlockData | lib/logstorage/block_stream_writer.go:383-450 | A block is accepted if and only if it does not precede the last one and its headers are small enough; the state is then that of the blocks with this one |
| PartStreams.BlockStartsAtEnds | lib/logstorage/block_data.go:96-120 | Every offset in a block header is the number of bytes written to that stream before |
| PartStreams.StreamsAscend | lib/logstorage/block_stream_writer.go:402-437 | The accepted blocks have ascending stream ids |
| PartFiles.ShardIsNext | lib/logstorage/block_stream_writer.go:179-207 | A column keeps its shard; a new one gets the next shard in turn, so shard ids are dense and below the number of shards |
| PartFiles.BlockReadsBack | lib/logstorage/block_data.go:125-164 | Reading at the recorded offsets gives the written block, whatever is written after it, and leaves every stream at the end of that block |
| PartFiles.HeaderReadsBack | lib/logstorage/block_header.go:399-484 | The columns header and its index give back the columns with their names through the shared name table, even after that has grown |
| PartHeaders.IndexBlockHeadersRoundTrip | lib/logstorage/index_block_header.go:81-166 | Ordered index block headers are read back |
| PartHeaders.BlockHeadersRoundTrip | lib/logstorage/block_header.go:69-215 | Ordered block headers are read back |
| PartHeaders.ColumnHeaderRoundTrip | lib/logstorage/block_header.go:634-952 | A column header of any type is read back, followed by whatever comes after it |
| PartHeaders.ColumnsHeaderRoundTrip | lib/logstorage/block_header.go:454-550 | So are all column headers and const columns of a block |
| PartHeaders.ColumnsHeaderIndexRoundTrip | lib/logstorage/block_header.go:275-347 | So are the references to names |
| PartHeaders.ValidateIndexBlockHeaders | lib/logstorage/index_block_header.go:168-175 | True if and only if the headers are ordered by stream |
| ColumnNames.IDNamesColumn | lib/logstorage/column_names.go:157-187 | An id stands for its name for ever: asking again gives the same id, and earlier ids stay |
| ColumnNames.ColumnNamesRoundTrip | lib/logstorage/column_names.go:101-154 | The name table is read back |
| ColumnNames.ColumnIdxsRoundTrip | lib/logstorage/column_names.go:33-80 | The shards of the columns are read back by name, in whatever order they were written |
| StringsBlock.StringsBlockRoundTrip | lib/logstorage/encoding.go:16-133 | Any list of strings is read back from its block |
| StringsBlock.ShortcutIsForConst | lib/logstorage/encoding.go:83-133 | The reader takes no list for a constant one that is not |
| StringsBlock.Uint64ItemsRoundTrip | lib/logstorage/encoding.go:190-336 | Lists of 64-bit numbers are read back for each of the eight block types |
| StringsBlock.Uint64ItemsAreSmall | lib/logstorage/encoding.go:190-243 | Of 1, 2, 4 and 8 bytes per item the smallest width is used that holds all items, and two or more equal items take one; the first byte of the block tells which |
| StringsBlock.BytesBlockRoundTrip | lib/logstorage/encoding.go:343-426 | Bytes are read back, plain or compressed, and what follows them is left |
| StringsBlock.VarUint64RoundTrip | lib/logstorage/encoding.go:372-426 | Variable-length numbers are read back, and what follows them is left |
| StringsBlock.MarshalStringsBlock | lib/logstorage/encoding.go:16-50 | The writing loops append exactly the block whose round trip is stated |
| StringsBlock.StringsBlockUnmarshaler.Unmarshal | lib/logstorage/encoding.go:83-133 | The reading loops fail exactly where the reading function does, and append what it gives |
| StringsBlock.UnmarshalUint64Items | lib/logstorage/encoding.go:246-336 | The same for numbers |
| Phrases.GetPhrasePos | lib/logstorage/filter_phrase.go:224-274 | The first place where the phrase occurs between word boundaries, or -1 if there is none |
| Phrases.MatchPrefix | lib/logstorage/filter_prefix.go:347-381 | True if and only if the prefix occurs somewhere at the start of a word |
| Phrases.MatchSubstring | lib/logstorage/filter_substring.go:345-356 | True if and only if the substring occurs |
| Phrases.MatchSequence | lib/logstorage/filter_sequence.go:265-274 | Taking the first place of every phrase finds a sequence if and only if there are places for all phrases in the whole string, in order and without overlap |
| Filters.EmptyPhrasesAreSkipped | lib/logstorage/filter_sequence.go:62-77 | Dropping the empty phrases of a sequence does not change what it matches |
| Tokens.TokenizeString | lib/logstorage/tokenizer.go:34-80 | Exactly the whole words of the string, each once |
| Tokens.PhraseTokens | lib/logstorage/filter_phrase.go:42-55 | Tokens of a matching phrase are whole words of the value |
| Tokens.PrefixTokens | lib/logstorage/filter_prefix.go:383-386 | So are those of a matching prefix but the last one |
| Tokens.SubstringTokens | lib/logstorage/filter_substring.go:43-47 | So are those of an occurring substring between its outer words |
| Tokens.SequenceTokens | lib/logstorage/filter_sequence.go:51-55 | So are those of all phrases of a matching sequence |
| Tokens.JoinedTokens | lib/logstorage/filter_and.go:200-210 | Tokens of a dictionary value are tokens of the comma-joined dictionary |
| HashTokenizers.TokenizeHashes | lib/logstorage/hash_tokenizer.go:16-165 | The hashes of exactly the tokens of the column, each once, and a tokenizer that can be used again |
| HashTokenizers.WriteAndReadBloomFilter | lib/logstorage/bloomfilter.go:31-71 | After marshaling and unmarshaling, the bloom filter of a column contains every token of every value |
| BloomFilters.ContainsAll | lib/logstorage/bloomfilter.go:173-191 | True if and only if all bits of all hashes are set |
| BloomFilters.MustInitHashes | lib/logstorage/bloomfilter.go:83-121 | A filter has 16 bits per hash, rounded up to words, and exactly the bits of the hashes are set |
| BloomFilters.HashesOfAll | lib/logstorage/bloomfilter.go:146-171 | The bits of a filter are those of six numbered hashes for each of its tokens, and no others |
| BloomFilters.HashesOfTokens | lib/logstorage/bloomfilter.go:123-144 | What is looked for are the same six hashes of exactly the given tokens |
| Bitmaps.Bitmap.AndNot | lib/logstorage/bitmap.go:99-111 | The set without the other set, and valid again |
| Bitmaps.Bitmap.ForEachSetBit | lib/logstorage/bitmap.go:128-153 | Exactly the numbers stay for which the callback returns true |
| Bitmaps.Bitmap.AreAllBitsSet | lib/logstorage/bitmap.go:83-97 | True if and only if every number below the length is in the set |
| Bitmaps.Bitmap.SetBits | lib/logstorage/bitmap.go:62-72 | All numbers below the length, and no bit beyond it |
| Bitmaps.Bitmap.OnesCount | lib/logstorage/bitmap.go:185-191 | The size of the set |
| BlockSearch.ApplyToBlockSearch | lib/logstorage/filter_and.go:73-89 | For every tree of AND, OR and NOT over phrase, prefix, substring, exact, sequence, in and contains_any leaves, every block and every bitmap: exactly the rows of the bitmap stay that blocks keep, and these are the rows that the row matcher accepts when no contains_any has an empty phrase |
| BlockSearch.ApplyOr | lib/logstorage/filter_or.go:69-91 | The rows that some alternative keeps, although alternatives only look at the rows left over |
| BlockSearch.AndMatchBloomFilters | lib/logstorage/filter_and.go:91-126 | A block is skipped only when no row of it is kept by the conjunction |
| BlockSearch.OrMatchBloomFilters | lib/logstorage/filter_or.go:93-128 | A block is skipped only when no row of it is kept by the disjunction |
| BlockSearch.ApplyToBlockSearchByField | lib/logstorage/filter_phrase.go:66-115 | For const, string, dictionary and missing columns exactly the rows with a matching value stay; with an empty phrase in contains_any all stay |
| BlockSearch.MatchDictValuesByAllTokens | lib/logstorage/filter_and.go:200-210 | No dictionary is skipped that has a value with all tokens |
| BlockSearch.MatchAnyValue | lib/logstorage/filter_in.go:191-217 | in() keeps exactly the rows whose value is listed, despite pruning by common tokens and token sets |
| BlockSearch.MatchBloomFilterAnyTokenSet | lib/logstorage/filter_in.go:206-220 | A block is skipped if and only if its filter lacks the common tokens or, for not too many values, the tokens of every single value; then no row has a listed value |
| BlockSearch.MatchAnyPhraseString | lib/logstorage/filter_contains_any.go:169-201 | contains_any() keeps exactly the rows that match some phrase, despite dropping phrases by their tokens |
| BlockSearch.GetCommonTokensAndTokenSets | lib/logstorage/in_values.go:317-371 | The common tokens are those of all values, and every set holds the other tokens of its value |
| BlockSearch.EmptyPhraseKeepsTooMuch | lib/logstorage/filter_contains_any.go:108-167 | For every list with an empty phrase there is a block that keeps a row without a match |
| Filters.MatchRow | lib/logstorage/filter_not.go:34-36 | The row matcher computes the meaning of the filter tree |
| Filters.FieldTokenNeeded | lib/logstorage/filter_or.go:139-193 | Every collected token of a field is a whole word of that field in every row that the tree keeps |
| Filters.GetCommonTokensForAndFilters | lib/logstorage/filter_and.go:137-189 | Collects by field exactly the tokens of the leaves and disjunctions below a conjunction |
| Filters.GetCommonTokensForOrFilters | lib/logstorage/filter_or.go:139-193 | Collects by field exactly the tokens that all alternatives share |
| Filters.BlocksKeepMatches | lib/logstorage/filter_contains_any.go:28-31 | Without empty phrases in contains_any, blocks and the row matcher agree on every tree and row |
| TagRows.MergeTagToStreamIDsRows | lib/logstorage/indexdb.go:673-760 | Merging in the buffer that is still being read cuts the rows into groups and makes one row of each, or gives up if the result is not sorted; it keeps all (tenant, tag, stream) entries and all other rows, keeps the first and the last row byte for byte, and returns sorted rows inside the buffer |
| TagRows.RowsMerger.FlushPendingStreamIDs | lib/logstorage/indexdb.go:795-817 | The pending ids are written as one row, sorted and each once, without touching a row that is not read yet |
| TagRows.MergeKeepsIndex | lib/logstorage/indexdb.go:673-760 | The result of merging says the same as the rows and is sorted if they were |
| TagRows.MergeIsFunction | lib/logstorage/indexdb.go:673-760 | The rows fix the groups and what becomes of them, so there is only one result |
| TagRows.RunBecomesOneRow | lib/logstorage/indexdb.go:697-735 | Neighbouring inner rows of one tag with fewer than 32 ids in all become exactly one row with these ids, in ascending order and each once |
| TagRows.SingleRowStays | lib/logstorage/indexdb.go:697-725 | Rows of at least 32 ids, rows of other kinds and the rows at both edges stay byte for byte |
| RowGroups.OnlyOneGroup | lib/logstorage/indexdb.go:726-735 | Where a group ends is fixed by where it starts: at the row that makes 32 ids of it, or before a row that cannot be added |
| TagRows.RemoveDuplicateStreamIDs | lib/logstorage/indexdb.go:819-841 | Strictly ascending ids with the same elements |
| TagRows.CheckItemsSorted | lib/logstorage/indexdb.go:1006-1019 | True if and only if the rows are in ascending byte order |
| IndexMerges.MergeKeepsStreams | lib/logstorage/indexdb.go:673-760 | An index of the registered streams is one before merging if and only if it is one afterwards, so all searches below find the same |
| TagValues.TagValueRoundTrip | lib/logstorage/stream_tags.go:264-330 | Every tag name and value is read back from its escaped form, whatever bytes it has, and so is what follows it |
| TagValues.MarshalTagValue | lib/logstorage/stream_tags.go:264-292 | Both paths append the escaped value and the separator |
| TagValues.UnmarshalTagValue | lib/logstorage/stream_tags.go:294-322 | The loop over escapes reads what the reading function says, and fails exactly when it does |
| IndexMerges.RowsAreRead | lib/logstorage/indexdb.go:885-920 | Rows of tenant, tag and stream ids are read back from their bytes |
| IndexMerges.MergedBytesAreIndex | lib/logstorage/indexdb.go:673-760 | The bytes of an index, merged, are the bytes of an index of the same streams |
| StreamIndex.MustRegisterStream | lib/logstorage/indexdb.go:529-570 | Registering adds exactly this stream to the indexed ones |
| StreamIndex.GetStreamIDsForTagFilter | lib/logstorage/indexdb.go:297-355 | For =, !=, =~ and !~, also with empty values and expressions that match the empty string: exactly the streams of the tenant whose tag value, empty when absent, satisfies the filter |
| StreamIndex.GetStreamIDsForTagRegexp | lib/logstorage/indexdb.go:451-486 | Exactly the streams with an accepted value, although the last decision is reused for repeated values |
| StreamIndex.UpdateStreamIDs | lib/logstorage/indexdb.go:269-295 | Adds exactly the streams that satisfy all tag filters |
| StreamIndex.SearchStreamIDs | lib/logstorage/indexdb.go:230-261 | Exactly the streams of the tenants that satisfy some conjunction |
| StreamIndex.GetTenantIDs | lib/logstorage/indexdb.go:488-527 | Every tenant with streams once, in ascending order; the seeks end |
| LastN.GetLastNQueryResults | app/vlstorage/lastnoptimization.go:42-123 | The search ends for every range; with few rows, or when it stops at a small window or has found enough, the result is the limit rows with the biggest timestamps, newest first, whatever rows the limited queries return; the exit depends on counts only |
| LastN.GetLogRowsLastN | app/vlstorage/lastnoptimization.go:126-133 | The newest rows of a small range, or all of them |
| LastN.SparseRowsAreFound | app/vlstorage/lastnoptimization.go:68-122 | The search does not give up when no three consecutive nanoseconds hold two rows |
| LastN.OddBottomLosesAllRows | app/vlstorage/lastnoptimization.go:79-86 | When at least twice the limit of rows share the odd first nanosecond of the range, every result is empty |
| LastNExact.RightExactlyWhen | app/vlstorage/lastnoptimization.go:79-86 | Whenever the search gives up at a one-nanosecond window: all its possible results are right if and only if a condition on row counts holds |
| LastNExact.FirstRunExactly | app/vlstorage/lastnoptimization.go:79-86 | If no window has hit its limit, the condition is that enough rows lie from the window on, with a clause of its own for the two nanoseconds around zero |
| LastNExact.ResumedExactly | app/vlstorage/lastnoptimization.go:79-86 | If some window has hit its limit, the condition is that nothing was found since, and that the last window is empty or has each of its newest rows often enough |
| LastNExact.MiddleRowsComeTwice | app/vlstorage/lastnoptimization.go:95-104 | When twice the limit of newest rows share the even middle nanosecond of the range and some row occurs fewer than limit times, some result is wrong since rows are returned twice |
| LastNExact.LastNanosecondIsMissed | app/vlstorage/lastnoptimization.go:58-62 | A query up to the biggest timestamp gets a right result from the slow path if and only if that result is right without the last nanosecond and no row is there |
| LastNExact.NewestRowIsMissed | app/vlstorage/lastnoptimization.go:58-62 | Two rows with which it is wrong |
| HitsMaps.HitsMapAdaptive.UpdateState | lib/logstorage/hits_map.go:87-146 | Before, at and after the switch to shards, an update that passes the filter adds its hits to its key modulo 2^64 and changes nothing else; the map moves to shards with the update that gives it 4096 keys |
| HitsMaps.TextOfKey | lib/logstorage/hits_map.go:228-256 | The filter looks at the usual decimal text of a number, without leading zeros and with the sign of a negative one |
| HitsMaps.HitsMapAdaptive.MoveToShards | lib/logstorage/hits_map.go:155-177 | The switch to shards keeps all counts and shares no counter; the filter of the unsharded map is gone |
| HitsMaps.HitsMapAdaptive.Clear | lib/logstorage/hits_map.go:59-62 | Forgets all counts, and the filter if and only if the map has moved to shards and had one |
| HitsMaps.HitsMap.MergeState | lib/logstorage/hits_map.go:339-373 | The pointwise sum of two maps, modulo 2^64, without shared counters |
| HitsMaps.HitsMapMergeParallel | lib/logstorage/hits_map.go:380-415 | Merging any workers gives maps with disjoint keys whose union is the pointwise sum of all workers; no counter is in two of them |
| HitsMaps.MergedIsTotal | lib/logstorage/hits_map.go:380-415 | So every key that passes the filter is in exactly the map of its shard, with its total number of hits over all updates of all workers modulo 2^64 |
| HitsMaps.CountHits | lib/logstorage/hits_map.go:380-415 | After any updates of any workers, some of them sharded, merging gives for every shard the part of what a single map would have counted for all updates |
| HitsMaps.CountsAreTotals | lib/logstorage/hits_map.go:256-270 | A single map counts for every key the sum of its hits modulo 2^64 |
| HitsMaps.SeenKeys | lib/logstorage/hits_map.go:228-254 | It has exactly the updated keys that pass the filter |

## Findings

Promises that the code does not keep, each with its exact condition. The model follows the code.

- **An empty phrase in `contains_any` keeps all rows of a block** (`lib/logstorage/filter_contains_any.go:108-167`), while the row
  matcher rejects rows with a value that matches no phrase. `BlockSearch.EmptyPhraseKeepsTooMuch` gives a block for every such
  list of phrases; `BlockSearch.ApplyToBlockSearch` states for every tree what blocks keep, and `Filters.BlocksKeepMatches` that
  it is what matches when no list has an empty phrase.
- **The last-N search may give up with wrong rows** (`app/vlstorage/lastnoptimization.go:79-86`). Halving rounds so that the odd
  first nanosecond of a range is never probed: rows that are all there are lost (`LastN.OddBottomLosesAllRows`). After a window has
  hit its limit, its rows are mixed with those of the last window, which may hold the same rows: they are returned twice
  (`LastNExact.MiddleRowsComeTwice`). `LastNExact.RightExactlyWhen` gives the condition under which all results are right, for
  all inputs. It is stated over row counts, the end of the probing (itself computed from row counts by `LastN.SearchExit`), and
  in one case over how often the same row occurs.
- **A row at the biggest timestamp is missed** by the slow path of a query that ends there, because the end is not moved past it
  (`app/vlstorage/lastnoptimization.go:58-62`): `LastNExact.LastNanosecondIsMissed` and `LastNExact.NewestRowIsMissed`.
- **Clearing a sharded hits map forgets its filter** (`lib/logstorage/hits_map.go:59-62`), since moving to shards resets the map that
  holds it (lines 155-177): `HitsMaps.HitsMapAdaptive.Clear`. Callers that clear maps use the empty filter.
- **A part cannot start with a block of the zero stream at a negative time**: a fresh writer, and a fresh reader, take it for one
  out of order (`lib/logstorage/block_stream_writer.go:402-437`, `lib/logstorage/block_stream_reader.go:430-478`). The exact condition is
  in `InmemoryPart.MustInitFromRows`, `BlockMerge.MustMergeBlockStreams` and `PartStreams.BlockStreamWriter.MustWriteBlockData`.
- **`uncompressedSizeBytes` is more than the sum of the row sizes when some name is empty in all rows**
  (`lib/logstorage/block.go:48-80`): `Blocks.Block.UncompressedSizeBytes`. Ingestion skips empty values (`Blocks.NoEmptyName`), and the
  merger copes with blocks whose recorded size is too big (`BlockMerge.MustMergeBlockStreams`).
- **A single row with repeated names is stored differently from several rows**: its fields all become columns of the same name, while in
  other blocks the last field of a name wins (`lib/logstorage/block.go:213-300`, `lib/logstorage/block.go:524-527`).
  `Blocks.Block.MustInitFromRows` states both; the block holds rows if and only if it was not made of one such row.
- **`forEachSetBit` leaves at a bit beyond the length without storing the changes to that word**
  (`lib/logstorage/bitmap.go:141-143`). No bitmap has such a bit (`Bitmaps.Bitmap.SetBits` and the validity that every operation keeps).
- **Merging drops rows without fields** (`lib/logstorage/rows.go:267-275`): `BlockMerge.MustMergeBlockStreams` states conservation up to
  these. Queries do not see such rows.
- **A stream filter with a conjunction of no tag filters selects nothing** (`lib/logstorage/indexdb.go:269-295`), unlike an empty
  conjunction: `StreamIndex.UpdateStreamIDs`.

## Left out

Part lifecycle:
- Aborted merges: a stop request may end a merge before or after its result is written, not in the middle of a block; `hitsMapMergeParallel` is not stopped at all.
- Drop filters, `deleteRows` and snapshots.
- Writing the result of a merge, giving up a merge and forced merges are steps of the state machine only; `Datadb` has no methods for them.
- The directories that `DropParts` reports as deleted are not compared with the directories of the step model; the step model removes them itself.
- Parts are numbers and rows are numbers in `PartLifecycle`; `BlockMerge` shows that merging keeps rows, and `DatadbSteps` relates the numbers to part wrappers.
- Part names are numbers; the hexadecimal form and its order in parts.json are not modelled.
- Free disk space, memory limits and the number of workers are parameters; concurrent steps are interleaved, not simultaneous.
- PartSelection.AppendPartsToMerge: part sizes are positive, ratios are real numbers and sizes do not wrap around at 2^64, since a part always has data.
- PartSelection.RewritesAreFew: assumes that the sizes of merged parts add up, which compression only approximates.

Blocks and merging:
- The heap and sort packages are replaced by their contracts; which of equal keys goes first is open.
- BlockMerge.BlockStreamWriter.MustWriteBlockInternal: the recorded size of a block built from rows is the sum of the row sizes, which holds for rows without empty values.
- InmemoryPart.MustInitFromRows: rows are at most 2 MiB, which ingestion enforces.
- Blocks.Block.MustInitFromRows: rows beyond 2000 columns are dropped by the code, and the contract says which.
- Blocks.Block.AppendRowsTo: only for blocks that hold rows, so not for a single row with repeated names, whose fields come back in an open order.
- Encoding columns into packed values, dictionaries and numbers, and the checks of minimum and maximum values that go with it; packed blocks are values with their bytes.
- PartMerges.MergeParts: `unpack` is any function that decodes packed blocks; that the recorded size, time and number of rows are those of the decoded rows is assumed of each block.

Part format:
- zstd is any function that can be inverted and does not blow an index block up beyond the limit of a reader (`PartStreams.CompressionExists`); lengths of 2^64 bytes are not modelled; xxhash is any function.
- Older versions of the format, the metadata file, and the single fixed shard of parts in memory.
- Buffered writers, readers and embedded structs are values inside their class; the number of written bytes is the length of a file.
- Searches in the index of a part; the reader reads it in sequence.
- Files of 2^64 bytes or more.

Filters:
- Strings are ASCII; numeric, IPv4, timestamp and regular expression leaves, wildcard field names and hidden fields are not modelled.
- Field names are taken as they are; the empty name is not replaced by the message field.
- Results that are computed once and kept (tokens, hashes, bloom filters of a block) are computed anew.

Stream index:
- TagRows.MergeTagToStreamIDsRows: inner tag rows can be parsed, as the code panics on others; tags are compared as bytes, which differs from comparing names and values only for rows with escapes that the storage does not write.
- Searches go through the rows one by one instead of seeking between prefixes, except in `GetTenantIDs`.
- The cache of stream filters, and regular expressions themselves; `re` is any predicate on strings.

Last rows:
- LastN.GetLastNQueryResults: the range is long enough for the search, which the caller checks; twice the limit does not wrap around; queries do not fail.
- Offsets and the conversion of rows to data blocks.

Hit counters:
- The memory budget, and parsing strings as numbers before they are counted.
- HitsMaps.HitsMapMergeParallel: the workers run one after the other; they share nothing, which the contract demands and the updates keep.
