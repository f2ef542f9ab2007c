/** Rows of the stream index: (tenant, tag) -> stream ids. Merging them in place. */
module TagRows {
  import opened Sorting
  import opened RowGroups
  import BE = BigEndian

  type Byte = BE.Byte
  type Row = seq<Byte>

  const NS_TAG_TO_STREAM_IDS: Byte := 2
  const COMMON_PREFIX_LEN: nat := 1 + 8
  const TAG_SEPARATOR: Byte := 1
  const MAX_STREAM_IDS_PER_ROW: nat := 32
  const STREAM_ID_LEN: nat := 16

  // ---------- Rows ----------

  /** The first separator from `start` on, or the end. */
  function IndexSeparator(b: Row, start: nat): (i: nat)
    requires start <= |b|
    ensures start <= i <= |b|
    decreases |b| - start
  {
    if start == |b| || b[start] == TAG_SEPARATOR then start else IndexSeparator(b, start + 1)
  }

  /** Where the stream ids start: behind the tenant, the tag name and the tag value. */
  function PrefixEnd(row: Row): (end: nat)
  {
    if |row| < COMMON_PREFIX_LEN then |row| + 1
    else
      var nameEnd := IndexSeparator(row, COMMON_PREFIX_LEN);
      if nameEnd == |row| then |row| + 1 else IndexSeparator(row, nameEnd + 1) + 1
  }

  predicate IsTagRow(row: Row) {
    |row| > 0 && row[0] == NS_TAG_TO_STREAM_IDS
  }

  /** A row that can be parsed: it has a tag and at least one stream id. */
  predicate ValidTagRow(row: Row) {
    IsTagRow(row) && PrefixEnd(row) < |row| && (|row| - PrefixEnd(row)) % STREAM_ID_LEN == 0
  }

  /** The first and the last row are kept unparsed. */
  predicate ValidRows(rows: seq<Row>) {
    forall i :: 0 < i < |rows| - 1 && IsTagRow(rows[i]) ==> ValidTagRow(rows[i])
  }

  function Prefix(row: Row): Row
    requires ValidTagRow(row)
  {
    row[..PrefixEnd(row)]
  }

  function Tail(row: Row): Row
    requires ValidTagRow(row)
  {
    row[PrefixEnd(row)..]
  }

  function StreamIDs(tail: Row): (ids: seq<StreamID>)
    requires |tail| % STREAM_ID_LEN == 0
    ensures |ids| == |tail| / STREAM_ID_LEN
  {
    if tail == [] then []
    else StreamIDs(tail[..|tail| - STREAM_ID_LEN]) + [BE.UnmarshalUint128(tail[|tail| - STREAM_ID_LEN..])]
  }

  function RowIDs(row: Row): seq<StreamID>
    requires ValidTagRow(row)
  {
    StreamIDs(Tail(row))
  }

  function MarshalIDs(ids: seq<StreamID>): (data: Row)
    ensures |data| == STREAM_ID_LEN * |ids|
  {
    if ids == [] then [] else MarshalIDs(ids[..|ids| - 1]) + BE.MarshalUint128(ids[|ids| - 1])
  }

  lemma {:induction false} IDsRoundTrip(ids: seq<StreamID>)
    ensures StreamIDs(MarshalIDs(ids)) == ids
  {
    if ids != [] {
      var front, last := MarshalIDs(ids[..|ids| - 1]), BE.MarshalUint128(ids[|ids| - 1]);
      IDsRoundTrip(ids[..|ids| - 1]);
      BE.Uint128RoundTrip(ids[|ids| - 1]);
      LastID(front, last);
    }
  }

  lemma {:induction false} LastID(front: Row, last: Row)
    requires |front| % STREAM_ID_LEN == 0 && |last| == STREAM_ID_LEN
    ensures StreamIDs(front + last) == StreamIDs(front) + [BE.UnmarshalUint128(last)]
  {
    var data := front + last;
    assert data[..|data| - STREAM_ID_LEN] == front && data[|data| - STREAM_ID_LEN..] == last;
  }

  lemma {:induction false} SameSeparator(a: Row, b: Row, start: nat, n: nat)
    requires start <= n <= |a| && n <= |b| && a[..n] == b[..n]
    requires IndexSeparator(a, start) < n
    ensures IndexSeparator(b, start) == IndexSeparator(a, start)
    decreases n - start
  {
    assert start < n && a[..n][start] == b[..n][start];
    if a[start] != TAG_SEPARATOR {
      SameSeparator(a, b, start + 1, n);
    }
  }

  lemma {:induction false} SamePrefixEnd(row: Row, other: Row, n: nat)
    requires ValidTagRow(row) && n == PrefixEnd(row) <= |other| && other[..n] == row[..n]
    ensures PrefixEnd(other) == n && IsTagRow(other)
  {
    var nameEnd := IndexSeparator(row, COMMON_PREFIX_LEN);
    SameSeparator(row, other, COMMON_PREFIX_LEN, n);
    SameSeparator(row, other, nameEnd + 1, n);
    assert other[..n][0] == row[..n][0];
  }

  lemma {:induction false} PrefixAndIDs(prefix: Row, ids: seq<StreamID>)
    requires ids != [] && prefix != [] && prefix[0] == NS_TAG_TO_STREAM_IDS && PrefixEnd(prefix + MarshalIDs(ids)) == |prefix|
    ensures var row := prefix + MarshalIDs(ids);
            ValidTagRow(row) && Prefix(row) == prefix && RowIDs(row) == ids
  {
    var data := MarshalIDs(ids);
    IDsRoundTrip(ids);
    assert (prefix + data)[..|prefix|] == prefix && (prefix + data)[|prefix|..] == data;
  }

  /** The prefix of a row stays its prefix with other stream ids. */
  lemma {:induction false} PrefixWithOtherIDs(row: Row, ids: seq<StreamID>)
    requires ValidTagRow(row) && ids != []
    ensures ValidTagRow(Prefix(row) + MarshalIDs(ids))
    ensures Prefix(Prefix(row) + MarshalIDs(ids)) == Prefix(row) && Tail(Prefix(row) + MarshalIDs(ids)) == MarshalIDs(ids)
  {
    var p, data := Prefix(row), MarshalIDs(ids);
    assert (p + data)[..|p|] == p && (p + data)[|p|..] == data;
    SamePrefixEnd(row, p + data, |p|);
  }

  // ---------- What the rows say ----------

  /** (tenant and tag, stream id) */
  type Entry = (Row, StreamID)

  ghost function EntriesOf(prefix: Row, ids: seq<StreamID>): set<Entry> {
    set id | id in ids :: (prefix, id)
  }

  ghost function RowEntries(row: Row): set<Entry> {
    if ValidTagRow(row) then EntriesOf(Prefix(row), RowIDs(row)) else {}
  }

  ghost function Entries(rows: seq<Row>): set<Entry> {
    if rows == [] then {} else Entries(rows[..|rows| - 1]) + RowEntries(rows[|rows| - 1])
  }

  /** The rows of other kinds. */
  ghost function OtherRows(rows: seq<Row>): seq<Row> {
    if rows == [] then []
    else
      var rest := OtherRows(rows[..|rows| - 1]);
      if IsTagRow(rows[|rows| - 1]) then rest else rest + [rows[|rows| - 1]]
  }

  lemma {:induction false} OneMoreRow(rows: seq<Row>, row: Row)
    ensures Entries(rows + [row]) == Entries(rows) + RowEntries(row)
    ensures OtherRows(rows + [row]) == if IsTagRow(row) then OtherRows(rows) else OtherRows(rows) + [row]
  {
    assert (rows + [row])[..|rows|] == rows;
  }

  lemma {:induction false} MergedRowEntries(row: Row, ids: seq<StreamID>)
    requires ValidTagRow(row) && ids != []
    ensures RowEntries(Prefix(row) + MarshalIDs(ids)) == EntriesOf(Prefix(row), ids)
  {
    PrefixWithOtherIDs(row, ids);
    IDsRoundTrip(ids);
  }

  // ---------- Order ----------

  predicate BytesLeq(a: Row, b: Row) {
    a == [] || (b != [] && (a[0] < b[0] || (a[0] == b[0] && BytesLeq(a[1..], b[1..]))))
  }

  predicate RowsSorted(rows: seq<Row>) {
    forall i :: 0 < i < |rows| ==> BytesLeq(rows[i - 1], rows[i])
  }

  predicate NatLeq(a: StreamID, b: StreamID) {
    a <= b
  }

  /** Drops repeated ids from a sorted list. */
  method RemoveDuplicateStreamIDs(sorted: seq<StreamID>) returns (dst: seq<StreamID>)
    requires forall i, j :: 0 <= i < j < |sorted| ==> sorted[i] <= sorted[j]
    ensures forall id :: id in dst <==> id in sorted
    ensures forall i, j :: 0 <= i < j < |dst| ==> dst[i] < dst[j]
    ensures |dst| <= |sorted| && (sorted != [] ==> dst != [])
  {
    if |sorted| < 2 {
      return sorted;
    }
    dst := sorted[..1];
    for i := 1 to |sorted|
      invariant 0 < |dst| <= i && dst[|dst| - 1] == sorted[i - 1]
      invariant forall id :: id in dst <==> id in sorted[..i]
      invariant forall a, b :: 0 <= a < b < |dst| ==> dst[a] < dst[b]
    {
      assert sorted[..i + 1] == sorted[..i] + [sorted[i]];
      if sorted[i - 1] == sorted[i] {
        continue;
      }
      dst := dst + [sorted[i]];
    }
    assert sorted[..|sorted|] == sorted;
  }

  // ---------- Merging rows of the same tag ----------

  function InsertID(id: StreamID, ids: seq<StreamID>): seq<StreamID> {
    if ids == [] || id < ids[0] then [id] + ids
    else if id == ids[0] then ids
    else [ids[0]] + InsertID(id, ids[1..])
  }

  /** The ids in increasing order, each once. */
  function SortedIDs(ids: seq<StreamID>): seq<StreamID> {
    if ids == [] then [] else InsertID(ids[0], SortedIDs(ids[1..]))
  }

  lemma {:induction false} InsertedID(id: StreamID, ids: seq<StreamID>)
    requires Increasing(ids)
    ensures Increasing(InsertID(id, ids)) && forall x :: x in InsertID(id, ids) <==> x == id || x in ids
  {
    if ids != [] {
      assert ids == [ids[0]] + ids[1..];
      if id > ids[0] {
        var tail := InsertID(id, ids[1..]);
        InsertedID(id, ids[1..]);
        assert InsertID(id, ids) == [ids[0]] + tail;
        forall k | 0 <= k < |tail| ensures ids[0] < tail[k] {
          assert tail[k] in tail && (tail[k] == id || tail[k] in ids[1..]);
        }
      }
    }
  }

  lemma {:induction false} SortedIDsAreSorted(ids: seq<StreamID>)
    ensures Increasing(SortedIDs(ids)) && SameElements(SortedIDs(ids), ids)
  {
    if ids != [] {
      SortedIDsAreSorted(ids[1..]);
      InsertedID(ids[0], SortedIDs(ids[1..]));
    }
  }

  // ---------- Which rows become one ----------

  ghost function ViewOf(row: Row): TagRow {
    if ValidTagRow(row) then TagRow(Prefix(row), RowIDs(row)) else Other
  }

  ghost function Views(rows: seq<Row>): (views: seq<TagRow>)
    ensures |views| == |rows| && forall i :: 0 <= i < |rows| ==> views[i] == ViewOf(rows[i])
  {
    seq(|rows|, i requires 0 <= i < |rows| => ViewOf(rows[i]))
  }

  /** What the rows a, ..., b - 1 become: one row. */
  ghost predicate BecomesRow(rows: seq<Row>, a: nat, b: nat, row: Row) {
    IsGroup(Views(rows), a, b) && if IsSingle(Views(rows), a) then row == rows[a] else IsJoined(Views(rows), a, b, ViewOf(row))
  }

  /** The rows are cut into groups, and each becomes a row. */
  ghost predicate AreJoined(rows: seq<Row>, out: seq<Row>, cuts: seq<nat>) {
    GroupsUpTo(rows, out, cuts) && cuts[|out|] == |rows|
  }

  ghost predicate GroupsUpTo(rows: seq<Row>, out: seq<Row>, cuts: seq<nat>) {
    && |cuts| == |out| + 1 && cuts[0] == 0
    && forall k :: 0 <= k < |out| ==> BecomesRow(rows, cuts[k], cuts[k + 1], out[k])
  }

  /** What becomes of the rows; an unsorted result is given up. */
  ghost predicate MergesTo(rows: seq<Row>, out: seq<Row>) {
    exists joined, cuts: seq<nat> :: AreJoined(rows, joined, cuts) && out == SortedOr(joined, rows)
  }

  ghost function SortedOr(out: seq<Row>, rows: seq<Row>): seq<Row> {
    if RowsSorted(out) then out else rows
  }

  lemma {:induction false} OnlyOneOutput(rows: seq<Row>, a: nat, b: nat, c: nat, x: Row, y: Row)
    requires BecomesRow(rows, a, b, x) && BecomesRow(rows, a, c, y)
    ensures b == c && x == y
  {
    OnlyOneGroup(Views(rows), a, b, c);
    if !IsSingle(Views(rows), a) {
      OnlyOneRow(Views(rows), a, b, ViewOf(x), ViewOf(y));
      SameViewSameBytes(x, y);
    }
  }

  lemma {:induction false} SameViewSameBytes(x: Row, y: Row)
    requires ViewOf(x) == ViewOf(y) != Other
    ensures x == y
  {
    SameIDsSameBytes(Tail(x), Tail(y));
    assert x == Prefix(x) + Tail(x) && y == Prefix(y) + Tail(y);
  }

  lemma {:induction false} SameIDsSameBytes(x: Row, y: Row)
    requires |x| % STREAM_ID_LEN == 0 && |y| % STREAM_ID_LEN == 0 && StreamIDs(x) == StreamIDs(y)
    ensures x == y
  {
    BytesOfIDs(x);
    BytesOfIDs(y);
  }

  lemma {:induction false} BytesOfIDs(data: Row)
    requires |data| % STREAM_ID_LEN == 0
    ensures MarshalIDs(StreamIDs(data)) == data
  {
    if data != [] {
      var front, last := data[..|data| - STREAM_ID_LEN], data[|data| - STREAM_ID_LEN..];
      assert data == front + last;
      BytesOfIDs(front);
      BE.Uint128OfBytes(last);
      LastID(front, last);
    }
  }

  lemma {:induction false} OnlyOneJoining(rows: seq<Row>, x: seq<Row>, cuts: seq<nat>, y: seq<Row>, cuts': seq<nat>, k: nat)
    requires GroupsUpTo(rows, x, cuts) && GroupsUpTo(rows, y, cuts') && k <= |x| && k <= |y|
    ensures cuts[k] == cuts'[k] && forall i :: 0 <= i < k ==> x[i] == y[i]
  {
    if k > 0 {
      OnlyOneJoining(rows, x, cuts, y, cuts', k - 1);
      NextIsSame(rows, x, cuts, y, cuts', k - 1, k);
    }
  }

  lemma {:induction false} NextIsSame(rows: seq<Row>, x: seq<Row>, cuts: seq<nat>, y: seq<Row>, cuts': seq<nat>, k: nat, next: nat)
    requires GroupsUpTo(rows, x, cuts) && GroupsUpTo(rows, y, cuts') && k < |x| && k < |y| && next == k + 1 && cuts[k] == cuts'[k]
    ensures cuts[next] == cuts'[next] && x[k] == y[k]
  {
    GroupAt(rows, x, cuts, k, next);
    GroupAt(rows, y, cuts', k, next);
    OnlyOneOutput(rows, cuts[k], cuts[next], cuts'[next], x[k], y[k]);
  }

  lemma {:induction false} GroupAt(rows: seq<Row>, out: seq<Row>, cuts: seq<nat>, k: nat, next: nat)
    requires GroupsUpTo(rows, out, cuts) && k < |out| && next == k + 1
    ensures BecomesRow(rows, cuts[k], cuts[next], out[k]) && cuts[k] < cuts[next] <= |rows|
  {
    assert BecomesRow(rows, cuts[k], cuts[k + 1], out[k]);
  }

  lemma {:induction false} SameJoining(rows: seq<Row>, x: seq<Row>, cuts: seq<nat>, y: seq<Row>, cuts': seq<nat>)
    requires AreJoined(rows, x, cuts) && AreJoined(rows, y, cuts')
    ensures x == y
  {
    if |x| <= |y| {
      NotLonger(rows, x, cuts, y, cuts');
    } else {
      NotLonger(rows, y, cuts', x, cuts);
    }
  }

  lemma {:induction false} NotLonger(rows: seq<Row>, x: seq<Row>, cuts: seq<nat>, y: seq<Row>, cuts': seq<nat>)
    requires AreJoined(rows, x, cuts) && AreJoined(rows, y, cuts') && |x| <= |y|
    ensures x == y
  {
    var k := |x|;
    OnlyOneJoining(rows, x, cuts, y, cuts', k);
    if k < |y| {
      GroupAt(rows, y, cuts', k, k + 1);
      assert false;
    }
  }

  /** There is only one result. */
  lemma {:induction false} MergeIsFunction(rows: seq<Row>, a: seq<Row>, b: seq<Row>)
    requires MergesTo(rows, a) && MergesTo(rows, b)
    ensures a == b
  {
    var x, s :| AreJoined(rows, x, s) && a == SortedOr(x, rows);
    var y, t :| AreJoined(rows, y, t) && b == SortedOr(y, rows);
    SameJoining(rows, x, s, y, t);
  }

  /** The group of row i. */
  lemma {:induction false} GroupOf(rows: seq<Row>, out: seq<Row>, cuts: seq<nat>, i: nat, n: nat) returns (k: nat)
    requires GroupsUpTo(rows, out, cuts) && n <= |out| && i < cuts[n]
    ensures k < n && cuts[k] <= i < cuts[k + 1]
  {
    k := n - 1;
    if i < cuts[k] {
      k := GroupOf(rows, out, cuts, i, k);
    }
  }

  /** Inner rows of one tag that have fewer than 32 ids in all become one row with these ids. */
  lemma {:induction false} RunBecomesOneRow(rows: seq<Row>, out: seq<Row>, cuts: seq<nat>, a: nat, b: nat) returns (k: nat)
    requires AreJoined(rows, out, cuts) && IsRun(Views(rows), a, b) && |IDsIn(Views(rows), a, b)| < 32
    ensures k < |out| && cuts[k] == a && cuts[k + 1] == b && IsJoined(Views(rows), a, b, ViewOf(out[k]))
  {
    k := GroupOf(rows, out, cuts, a, |out|);
    GroupAt(rows, out, cuts, k, k + 1);
    RunIsGroup(Views(rows), a, b, cuts[k], cuts[k + 1]);
  }

  /** A row of at least 32 ids stays as it is, and so do other rows. */
  lemma {:induction false} SingleRowStays(rows: seq<Row>, out: seq<Row>, cuts: seq<nat>, i: nat) returns (k: nat)
    requires AreJoined(rows, out, cuts) && i < |rows| && IsSingle(Views(rows), i)
    ensures k < |out| && cuts[k] == i && cuts[k + 1] == i + 1 && out[k] == rows[i]
  {
    k := GroupOf(rows, out, cuts, i, |out|);
    GroupAt(rows, out, cuts, k, k + 1);
  }

  // ---------- Merging row by row ----------

  /** Stream ids of one tag that are not written yet. */
  datatype Pending = Pending(prefix: Row, ids: seq<StreamID>)

  datatype MergeState = MergeState(out: seq<Row>, p: Pending)

  /** The written rows with the pending ids as one more row. */
  ghost function Flushed(out: seq<Row>, p: Pending): seq<Row> {
    if p.ids == [] then out else out + [p.prefix + MarshalIDs(SortedIDs(p.ids))]
  }

  /** Rows with many ids, other rows and the rows at both edges are kept as they are. */
  predicate IsKept(row: Row, edge: bool) {
    !IsTagRow(row) || edge || (ValidTagRow(row) && |Tail(row)| / STREAM_ID_LEN >= MAX_STREAM_IDS_PER_ROW)
  }

  ghost function Collected(st: MergeState, row: Row): MergeState
    requires ValidTagRow(row)
  {
    Added(if Prefix(row) != st.p.prefix then MergeState(Flushed(st.out, st.p), Pending(st.p.prefix, [])) else st, row)
  }

  ghost function Added(st: MergeState, row: Row): MergeState
    requires ValidTagRow(row)
  {
    Limited(st.out, Pending(Prefix(row), st.p.ids + RowIDs(row)))
  }

  ghost function Limited(out: seq<Row>, p: Pending): MergeState {
    if |p.ids| >= MAX_STREAM_IDS_PER_ROW then MergeState(Flushed(out, p), Pending(p.prefix, [])) else MergeState(out, p)
  }

  ghost function Step(st: MergeState, row: Row, edge: bool): MergeState
    requires IsTagRow(row) && !edge ==> ValidTagRow(row)
  {
    if IsKept(row, edge) then MergeState(Flushed(st.out, st.p) + [row], Pending(st.p.prefix, []))
    else Collected(st, row)
  }

  predicate IsEdge(i: nat, len: nat) {
    i == 0 || i + 1 == len
  }

  /** The states before the first row, after the first row, and so on. */
  ghost predicate IsTrace(rows: seq<Row>, states: seq<MergeState>)
    requires ValidRows(rows)
  {
    |states| == |rows| + 1 && IsTraceOfFirst(rows, states, |rows|)
  }

  ghost predicate IsTraceOfFirst(rows: seq<Row>, states: seq<MergeState>, n: nat)
    requires ValidRows(rows) && n <= |rows| && |states| == n + 1
  {
    && states[0] == MergeState([], Pending([], []))
    && forall i :: 0 <= i < n ==> IsStep(rows, i, states[i], states[i + 1])
  }

  lemma {:induction false} LongerTrace(rows: seq<Row>, states: seq<MergeState>, n: nat, st: MergeState)
    requires ValidRows(rows) && n < |rows| && |states| == n + 1
    requires IsTraceOfFirst(rows, states, n) && IsStep(rows, n, states[n], st)
    ensures IsTraceOfFirst(rows, states + [st], n + 1)
  {
  }

  ghost predicate IsStep(rows: seq<Row>, i: nat, st: MergeState, st': MergeState)
    requires i < |rows| && ValidRows(rows)
  {
    st' == Step(st, rows[i], IsEdge(i, |rows|))
  }

  // Merging row by row finds the groups.

  /** The output is made of the groups of the first rows, and what is pending may become the next group. */
  ghost predicate JoinsFirst(rows: seq<Row>, i: nat, st: MergeState) {
    exists cuts: seq<nat> :: JoinsAt(rows, i, st.out, st.p, cuts)
  }

  ghost predicate JoinsAt(rows: seq<Row>, i: nat, out: seq<Row>, p: Pending, cuts: seq<nat>) {
    GroupsUpTo(rows, out, cuts) && Gathers(Views(rows), cuts[|out|], i, p.prefix, p.ids)
  }

  lemma {:induction false} OneMoreGroup(rows: seq<Row>, out: seq<Row>, cuts: seq<nat>, b: nat, row: Row)
    requires GroupsUpTo(rows, out, cuts) && BecomesRow(rows, cuts[|out|], b, row)
    ensures GroupsUpTo(rows, out + [row], cuts + [b])
  {
  }

  lemma {:induction false} FlushedRow(row: Row, ids: seq<StreamID>)
    requires ValidTagRow(row) && ids != []
    ensures ViewOf(Prefix(row) + MarshalIDs(SortedIDs(ids))) == TagRow(Prefix(row), SortedIDs(ids))
  {
    SortedIDsAreSorted(ids);
    BothEmpty(SortedIDs(ids), ids);
    PrefixWithOtherIDs(row, SortedIDs(ids));
    IDsRoundTrip(SortedIDs(ids));
  }

  lemma {:induction false} FlushJoins(rows: seq<Row>, i: nat, out: seq<Row>, p: Pending)
    requires JoinsFirst(rows, i, MergeState(out, p)) && i <= |rows| && MustFlush(Views(rows), i, p.prefix, p.ids)
    ensures JoinsFirst(rows, i, MergeState(Flushed(out, p), Pending(p.prefix, [])))
  {
    var cuts: seq<nat> :| JoinsAt(rows, i, out, p, cuts);
    if p.ids == [] {
      assert JoinsAt(rows, i, out, Pending(p.prefix, []), cuts);
    } else {
      FlushedGroup(rows, cuts[|out|], i, p);
      OneMoreGroup(rows, out, cuts, i, p.prefix + MarshalIDs(SortedIDs(p.ids)));
      assert JoinsAt(rows, i, Flushed(out, p), Pending(p.prefix, []), cuts + [i]);
    }
  }

  lemma {:induction false} FlushedGroup(rows: seq<Row>, c: nat, i: nat, p: Pending)
    requires Gathers(Views(rows), c, i, p.prefix, p.ids) && p.ids != [] && MustFlush(Views(rows), i, p.prefix, p.ids)
    ensures BecomesRow(rows, c, i, p.prefix + MarshalIDs(SortedIDs(p.ids)))
  {
    SortedIDsAreSorted(p.ids);
    GatheredGroup(Views(rows), c, i, p.prefix, p.ids, SortedIDs(p.ids));
    FlushedRow(rows[c], p.ids);
  }

  lemma {:induction false} KeptJoins(rows: seq<Row>, i: nat, st: MergeState)
    requires i < |rows| && IsSingle(Views(rows), i) && JoinsFirst(rows, i, st)
    ensures JoinsFirst(rows, i + 1, MergeState(Flushed(st.out, st.p) + [rows[i]], Pending(st.p.prefix, [])))
  {
    FlushJoins(rows, i, st.out, st.p);
    SingleJoins(rows, i, Flushed(st.out, st.p), st.p.prefix);
  }

  lemma {:induction false} SingleJoins(rows: seq<Row>, i: nat, out: seq<Row>, prefix: Row)
    requires i < |rows| && IsSingle(Views(rows), i) && JoinsFirst(rows, i, MergeState(out, Pending(prefix, [])))
    ensures JoinsFirst(rows, i + 1, MergeState(out + [rows[i]], Pending(prefix, [])))
  {
    var cuts: seq<nat> :| JoinsAt(rows, i, out, Pending(prefix, []), cuts);
    SingleIsGroup(rows, i);
    OneMoreGroup(rows, out, cuts, i + 1, rows[i]);
    assert JoinsAt(rows, i + 1, out + [rows[i]], Pending(prefix, []), cuts + [i + 1]);
  }

  lemma {:induction false} SingleIsGroup(rows: seq<Row>, i: nat)
    requires i < |rows| && IsSingle(Views(rows), i)
    ensures BecomesRow(rows, i, i + 1, rows[i])
  {
  }

  lemma {:induction false} RowIsCollected(rows: seq<Row>, i: nat, c: nat, p: Pending)
    requires i < |rows| && !IsSingle(Views(rows), i) && Gathers(Views(rows), c, i, p.prefix, p.ids) && |p.ids| < 32
    requires p.ids == [] || p.prefix == Prefix(rows[i])
    ensures ValidTagRow(rows[i])
    ensures Gathers(Views(rows), c, i + 1, Prefix(rows[i]), p.ids + RowIDs(rows[i]))
  {
    assert Views(rows)[i] == ViewOf(rows[i]);
    GatherMore(Views(rows), c, i, p.prefix, p.ids);
  }

  lemma {:induction false} CollectedJoins(rows: seq<Row>, i: nat, st: MergeState)
    requires i < |rows| && !IsSingle(Views(rows), i) && ValidTagRow(rows[i]) && JoinsFirst(rows, i, st) && |st.p.ids| < 32
    ensures JoinsFirst(rows, i + 1, Collected(st, rows[i])) && |Collected(st, rows[i]).p.ids| < 32
  {
    if Prefix(rows[i]) != st.p.prefix {
      FlushJoins(rows, i, st.out, st.p);
      AddedJoins(rows, i, MergeState(Flushed(st.out, st.p), Pending(st.p.prefix, [])));
    } else {
      AddedJoins(rows, i, st);
    }
  }

  lemma {:induction false} AddedJoins(rows: seq<Row>, i: nat, st: MergeState)
    requires i < |rows| && !IsSingle(Views(rows), i) && ValidTagRow(rows[i]) && JoinsFirst(rows, i, st) && |st.p.ids| < 32
    requires st.p.ids == [] || st.p.prefix == Prefix(rows[i])
    ensures JoinsFirst(rows, i + 1, Added(st, rows[i])) && |Added(st, rows[i]).p.ids| < 32
  {
    var cuts: seq<nat> :| JoinsAt(rows, i, st.out, st.p, cuts);
    RowIsCollected(rows, i, cuts[|st.out|], st.p);
    var p := Pending(Prefix(rows[i]), st.p.ids + RowIDs(rows[i]));
    assert JoinsAt(rows, i + 1, st.out, p, cuts);
    LimitedJoins(rows, i + 1, st.out, p);
  }

  lemma {:induction false} LimitedJoins(rows: seq<Row>, i: nat, out: seq<Row>, p: Pending)
    requires i <= |rows| && JoinsFirst(rows, i, MergeState(out, p))
    ensures JoinsFirst(rows, i, Limited(out, p)) && |Limited(out, p).p.ids| < 32
  {
    if |p.ids| >= MAX_STREAM_IDS_PER_ROW {
      FlushJoins(rows, i, out, p);
    }
  }

  lemma {:induction false} StepJoins(rows: seq<Row>, i: nat, st: MergeState)
    requires ValidRows(rows) && i < |rows| && JoinsFirst(rows, i, st) && |st.p.ids| < 32
    ensures JoinsFirst(rows, i + 1, Step(st, rows[i], IsEdge(i, |rows|))) && |Step(st, rows[i], IsEdge(i, |rows|)).p.ids| < 32
  {
    assert IsSingle(Views(rows), i) <==> IsKept(rows[i], IsEdge(i, |rows|));
    if IsSingle(Views(rows), i) {
      KeptJoins(rows, i, st);
    } else {
      CollectedJoins(rows, i, st);
    }
  }

  lemma {:induction false} TraceJoins(rows: seq<Row>, states: seq<MergeState>, n: nat)
    requires ValidRows(rows) && IsTrace(rows, states) && n <= |rows|
    ensures JoinsFirst(rows, n, states[n]) && |states[n].p.ids| < 32
  {
    if n == 0 {
      assert JoinsAt(rows, 0, [], Pending([], []), [0]);
    } else {
      TraceJoins(rows, states, n - 1);
      assert IsStep(rows, n - 1, states[n - 1], states[n - 1 + 1]);
      StepJoins(rows, n - 1, states[n - 1]);
    }
  }

  /** Merging row by row to the end joins all groups. */
  lemma {:induction false} TraceIsJoined(rows: seq<Row>, states: seq<MergeState>) returns (cuts: seq<nat>)
    requires ValidRows(rows) && IsTrace(rows, states) && states[|rows|].p.ids == []
    ensures AreJoined(rows, states[|rows|].out, cuts)
  {
    TraceJoins(rows, states, |rows|);
    cuts :| JoinsAt(rows, |rows|, states[|rows|].out, states[|rows|].p, cuts);
  }

  lemma {:induction false} TraceOf(rows: seq<Row>, n: nat) returns (states: seq<MergeState>)
    requires ValidRows(rows) && n <= |rows|
    ensures |states| == n + 1 && IsTraceOfFirst(rows, states, n)
  {
    if n == 0 {
      states := [MergeState([], Pending([], []))];
    } else {
      states := TraceOf(rows, n - 1);
      var st := Step(states[n - 1], rows[n - 1], IsEdge(n - 1, |rows|));
      LongerTrace(rows, states, n - 1, st);
      states := states + [st];
    }
  }

  // What merging keeps.

  ghost predicate ValidPending(p: Pending) {
    p.ids != [] ==> exists row :: ValidTagRow(row) && Prefix(row) == p.prefix
  }

  /** The first i rows are in the output, up to the pending ids. */
  ghost predicate Merged(rows: seq<Row>, i: nat, st: MergeState)
    requires i <= |rows|
  {
    && ValidPending(st.p)
    && Entries(st.out) + EntriesOf(st.p.prefix, st.p.ids) == Entries(rows[..i])
    && OtherRows(st.out) == OtherRows(rows[..i])
    && (if i == 0 then st.out == [] && st.p.ids == [] else st.out != [] && st.out[0] == rows[0])
    && |st.out| + (if st.p.ids == [] then 0 else 1) <= i
  }

  lemma {:induction false} FlushedMerged(rows: seq<Row>, i: nat, st: MergeState)
    requires i <= |rows| && Merged(rows, i, st)
    ensures Merged(rows, i, MergeState(Flushed(st.out, st.p), Pending(st.p.prefix, [])))
  {
    assert EntriesOf(st.p.prefix, []) == {};
    if st.p.ids != [] {
      var ids := SortedIDs(st.p.ids);
      SortedIDsAreSorted(st.p.ids);
      assert st.p.ids[0] in ids;
      PendingEntries(st.p, ids);
      OneMoreRow(st.out, st.p.prefix + MarshalIDs(ids));
    }
  }

  lemma {:induction false} PendingEntries(p: Pending, ids: seq<StreamID>)
    requires ValidPending(p) && p.ids != [] && ids != [] && SameElements(ids, p.ids)
    ensures RowEntries(p.prefix + MarshalIDs(ids)) == EntriesOf(p.prefix, p.ids) && IsTagRow(p.prefix + MarshalIDs(ids))
  {
    var row :| ValidTagRow(row) && Prefix(row) == p.prefix;
    MergedRowEntries(row, ids);
    PrefixWithOtherIDs(row, ids);
  }

  lemma {:induction false} NextRows(rows: seq<Row>, i: nat)
    requires i < |rows|
    ensures Entries(rows[..i + 1]) == Entries(rows[..i]) + RowEntries(rows[i])
    ensures OtherRows(rows[..i + 1]) == if IsTagRow(rows[i]) then OtherRows(rows[..i]) else OtherRows(rows[..i]) + [rows[i]]
  {
    OneMoreRow(rows[..i], rows[i]);
    assert rows[..i + 1] == rows[..i] + [rows[i]];
  }

  lemma {:induction false} KeptMerged(rows: seq<Row>, i: nat, st: MergeState)
    requires i < |rows| && Merged(rows, i, st)
    ensures Merged(rows, i + 1, MergeState(Flushed(st.out, st.p) + [rows[i]], Pending(st.p.prefix, [])))
  {
    FlushedMerged(rows, i, st);
    NextRows(rows, i);
    OneMoreRow(Flushed(st.out, st.p), rows[i]);
  }

  lemma {:induction false} EntriesOfBoth(prefix: Row, a: seq<StreamID>, b: seq<StreamID>)
    ensures EntriesOf(prefix, a + b) == EntriesOf(prefix, a) + EntriesOf(prefix, b)
  {
  }

  lemma {:induction false} IDsMerged(rows: seq<Row>, i: nat, st: MergeState)
    requires 0 < i < |rows| && Merged(rows, i, st) && ValidTagRow(rows[i])
    requires st.p.ids == [] || st.p.prefix == Prefix(rows[i])
    ensures Merged(rows, i + 1, MergeState(st.out, Pending(Prefix(rows[i]), st.p.ids + RowIDs(rows[i]))))
  {
    NextRows(rows, i);
    EntriesOfBoth(Prefix(rows[i]), st.p.ids, RowIDs(rows[i]));
    SameEntries(st.p, Prefix(rows[i]));
    assert RowEntries(rows[i]) == EntriesOf(Prefix(rows[i]), RowIDs(rows[i]));
  }

  lemma {:induction false} SameEntries(p: Pending, prefix: Row)
    requires p.ids == [] || p.prefix == prefix
    ensures EntriesOf(p.prefix, p.ids) == EntriesOf(prefix, p.ids)
  {
  }

  lemma {:induction false} CollectedMerged(rows: seq<Row>, i: nat, st: MergeState)
    requires 0 < i < |rows| && Merged(rows, i, st) && ValidTagRow(rows[i])
    ensures Merged(rows, i + 1, Collected(st, rows[i]))
  {
    if Prefix(rows[i]) != st.p.prefix {
      FlushedMerged(rows, i, st);
      SameTagMerged(rows, i, MergeState(Flushed(st.out, st.p), Pending(st.p.prefix, [])));
    } else {
      SameTagMerged(rows, i, st);
    }
  }

  lemma {:induction false} SameTagMerged(rows: seq<Row>, i: nat, st: MergeState)
    requires 0 < i < |rows| && Merged(rows, i, st) && ValidTagRow(rows[i])
    requires st.p.ids == [] || st.p.prefix == Prefix(rows[i])
    ensures var p := Pending(Prefix(rows[i]), st.p.ids + RowIDs(rows[i]));
            Merged(rows, i + 1, MergeState(st.out, p)) && Merged(rows, i + 1, MergeState(Flushed(st.out, p), Pending(p.prefix, [])))
  {
    IDsMerged(rows, i, st);
    FlushedMerged(rows, i + 1, MergeState(st.out, Pending(Prefix(rows[i]), st.p.ids + RowIDs(rows[i]))));
  }

  lemma {:induction false} StepMerged(rows: seq<Row>, i: nat, st: MergeState, edge: bool)
    requires i < |rows| && ValidRows(rows) && Merged(rows, i, st) && (IsEdge(i, |rows|) ==> edge)
    ensures Merged(rows, i + 1, Step(st, rows[i], edge))
  {
    if IsKept(rows[i], edge) {
      KeptMerged(rows, i, st);
    } else {
      CollectedMerged(rows, i, st);
    }
  }

  lemma {:induction false} NoRowsMerged(rows: seq<Row>)
    ensures Merged(rows, 0, MergeState([], Pending([], [])))
  {
    assert EntriesOf([], []) == {};
  }

  lemma {:induction false} TraceMerged(rows: seq<Row>, states: seq<MergeState>, n: nat)
    requires ValidRows(rows) && IsTrace(rows, states) && n <= |rows|
    ensures Merged(rows, n, states[n])
  {
    if n == 0 {
      NoRowsMerged(rows);
    } else {
      TraceMerged(rows, states, n - 1);
      assert IsStep(rows, n - 1, states[n - 1], states[n - 1 + 1]);
      NextState(rows, n - 1, n, states[n - 1], states[n]);
    }
  }

  lemma {:induction false} NextState(rows: seq<Row>, i: nat, n: nat, st: MergeState, st': MergeState)
    requires n == i + 1 <= |rows| && ValidRows(rows) && Merged(rows, i, st) && IsStep(rows, i, st, st')
    ensures Merged(rows, n, st')
  {
    StepMerged(rows, i, st, IsEdge(i, |rows|));
  }

  lemma {:induction false} AllMerged(rows: seq<Row>, st: MergeState)
    requires Merged(rows, |rows|, st) && st.p.ids == []
    ensures Entries(st.out) == Entries(rows) && OtherRows(st.out) == OtherRows(rows) && |st.out| <= |rows|
    ensures rows != [] ==> st.out != [] && st.out[0] == rows[0]
  {
    assert rows[..|rows|] == rows;
    assert EntriesOf(st.p.prefix, []) == {};
  }

  lemma {:induction false} LastRowIsKept(rows: seq<Row>, i: nat, st: MergeState, st': MergeState)
    requires ValidRows(rows) && i == |rows| - 1 && IsStep(rows, i, st, st')
    ensures st'.p.ids == [] && st'.out != [] && st'.out[|st'.out| - 1] == rows[i]
  {
  }

  /** The result says the same about streams, keeps the other rows, and starts and ends with the same
      rows. */
  ghost predicate SameIndex(rows: seq<Row>, out: seq<Row>) {
    && Entries(out) == Entries(rows) && OtherRows(out) == OtherRows(rows) && |out| <= |rows|
    && (rows != [] ==> out != [] && out[0] == rows[0] && out[|out| - 1] == rows[|rows| - 1])
  }

  /** Nothing stays pending. */
  lemma {:induction false} TraceEnd(rows: seq<Row>, states: seq<MergeState>)
    requires ValidRows(rows) && IsTrace(rows, states)
    ensures states[|rows|].p.ids == [] && SameIndex(rows, states[|rows|].out)
  {
    var n := |rows|;
    TraceMerged(rows, states, n);
    if n > 0 {
      assert IsStep(rows, n - 1, states[n - 1], states[n - 1 + 1]);
      LastRowIsKept(rows, n - 1, states[n - 1], states[n]);
    }
    AllMerged(rows, states[n]);
  }

  /** The index stays the same for searches, and so does the order of rows between blocks. */
  lemma {:induction false} MergeKeepsIndex(rows: seq<Row>, out: seq<Row>)
    requires ValidRows(rows) && MergesTo(rows, out)
    ensures SameIndex(rows, out) && (RowsSorted(rows) ==> RowsSorted(out))
  {
    var joined, cuts :| AreJoined(rows, joined, cuts) && out == SortedOr(joined, rows);
    var states := TraceOf(rows, |rows|);
    TraceEnd(rows, states);
    var cuts' := TraceIsJoined(rows, states);
    SameJoining(rows, joined, cuts, states[|rows|].out, cuts');
    SameIndexOr(rows, joined);
  }

  lemma {:induction false} SameIndexOr(rows: seq<Row>, out: seq<Row>)
    requires SameIndex(rows, out)
    ensures SameIndex(rows, SortedOr(out, rows)) && (RowsSorted(rows) ==> RowsSorted(SortedOr(out, rows)))
  {
  }

  // ---------- Merging in place ----------

  /** A row inside a buffer. */
  datatype Item = Item(start: nat, end: nat)

  ghost predicate Inside(items: seq<Item>, len: nat) {
    && (forall i :: 0 <= i < |items| ==> items[i].start <= items[i].end <= len)
    && forall i, j :: 0 <= i < j < |items| ==> items[i].end <= items[j].start
  }

  ghost function RowsOf(data: seq<Byte>, items: seq<Item>): (rows: seq<Row>)
    requires Inside(items, |data|)
    ensures |rows| == |items|
  {
    seq(|items|, i requires 0 <= i < |items| => data[items[i].start..items[i].end])
  }

  /** How many bytes of the buffer the first i rows took. */
  ghost function Consumed(items: seq<Item>, i: nat): nat
    requires i <= |items|
  {
    if i == 0 then 0 else items[i - 1].end
  }

  function PendingLen(p: Pending): nat {
    if p.ids == [] then 0 else |p.prefix| + STREAM_ID_LEN * |p.ids|
  }

  /** The items cut the bytes into these rows. */
  ghost predicate Written(bytes: seq<Byte>, its: seq<Item>, out: seq<Row>) {
    Inside(its, |bytes|) && RowsOf(bytes, its) == out
  }

  lemma {:induction false} WrittenMore(bytes: seq<Byte>, its: seq<Item>, out: seq<Row>, row: Row)
    requires Written(bytes, its, out)
    ensures Written(bytes + row, its + [Item(|bytes|, |bytes| + |row|)], out + [row])
  {
    var its' := its + [Item(|bytes|, |bytes| + |row|)];
    forall k | 0 <= k < |its'| ensures RowsOf(bytes + row, its')[k] == (out + [row])[k] {
      if k < |its| {
        assert its'[k] == its[k] && its[k].start <= its[k].end <= |bytes|;
        assert RowsOf(bytes, its)[k] == out[k];
        assert (bytes + row)[its[k].start..its[k].end] == bytes[its[k].start..its[k].end];
      }
    }
  }

  method AppendBytes(data: array<Byte>, pos: nat, row: Row)
    requires pos + |row| <= data.Length
    modifies data
    ensures data[pos..pos + |row|] == row && data[..pos] == old(data[..pos])
    ensures forall k :: pos + |row| <= k < data.Length ==> data[k] == old(data[k])
  {
    forall k | 0 <= k < |row| {
      data[pos + k] := row[k];
    }
  }

  class RowsMerger {
    const data: array<Byte>
    const items: array<Item>
    /** What has been written so far. */
    var dataLen: nat
    var itemsLen: nat
    ghost var out: seq<Row>

    constructor (data: array<Byte>, items: array<Item>)
      ensures this.data == data && this.items == items && dataLen == itemsLen == 0 && out == []
    {
      this.data, this.items := data, items;
      dataLen, itemsLen, out := 0, 0, [];
    }

    ghost predicate Valid()
      reads this, data, items
    {
      && dataLen <= data.Length && itemsLen <= items.Length
      && Written(data[..dataLen], items[..itemsLen], out)
    }

    /** Nothing behind the written part has changed. */
    ghost predicate Unread(data0: seq<Byte>, items0: seq<Item>)
      reads this, data, items
    {
      && data.Length == |data0| && items.Length == |items0|
      && (forall k :: dataLen <= k < data.Length ==> data[k] == data0[k])
      && forall k :: itemsLen <= k < items.Length ==> items[k] == items0[k]
    }

    method WriteRow(row: Row, ghost data0: seq<Byte>, ghost items0: seq<Item>)
      requires Valid() && Unread(data0, items0) && dataLen + |row| <= data.Length && itemsLen < items.Length
      modifies this, data, items
      ensures Valid() && Unread(data0, items0)
      ensures dataLen == old(dataLen) + |row| && itemsLen == old(itemsLen) + 1 && out == old(out) + [row]
    {
      ghost var bytes, its := data[..dataLen], items[..itemsLen];
      AppendBytes(data, dataLen, row);
      items[itemsLen] := Item(dataLen, dataLen + |row|);
      WrittenMore(bytes, its, out, row);
      dataLen, itemsLen, out := dataLen + |row|, itemsLen + 1, out + [row];
      assert data[..dataLen] == bytes + row;
      assert items[..itemsLen] == its + [Item(|bytes|, |bytes| + |row|)];
    }

    /** Writes the pending stream ids as one row. */
    method FlushPendingStreamIDs(p: Pending, ghost data0: seq<Byte>, ghost items0: seq<Item>)
      requires Valid() && Unread(data0, items0)
      requires p.ids != [] ==> dataLen + PendingLen(p) <= data.Length && itemsLen < items.Length
      modifies this, data, items
      ensures Valid() && Unread(data0, items0)
      ensures dataLen <= old(dataLen) + PendingLen(p) && itemsLen == old(itemsLen) + if p.ids == [] then 0 else 1
      ensures out == Flushed(old(out), p)
    {
      if |p.ids| == 0 {
        return;
      }
      var pendingStreamIDs := Sort(p.ids, NatLeq);
      assert forall i, j :: 0 <= i < j < |pendingStreamIDs| ==> NatLeq(pendingStreamIDs[i], pendingStreamIDs[j]);
      pendingStreamIDs := RemoveDuplicateStreamIDs(pendingStreamIDs);
      SortedByMethod(p.ids, pendingStreamIDs);
      WriteRow(p.prefix + MarshalIDs(pendingStreamIDs), data0, items0);
    }
  }

  lemma {:induction false} SortedByMethod(ids: seq<StreamID>, sorted: seq<StreamID>)
    requires Increasing(sorted) && forall id :: id in sorted <==> id in multiset(ids)
    ensures sorted == SortedIDs(ids)
  {
    SortedIDsAreSorted(ids);
    forall id ensures id in sorted <==> id in ids {
      assert id in multiset(ids) <==> id in ids;
    }
    OnlyOneOrder(sorted, SortedIDs(ids));
  }

  /** Where the merge is after i rows: there is always room for what is pending before the next row
      to read. */
  ghost predicate HasRoom(dataLen: nat, itemsLen: nat, p: Pending, items: seq<Item>, i: nat)
    requires i <= |items|
  {
    && dataLen + PendingLen(p) <= Consumed(items, i)
    && itemsLen + (if p.ids == [] then 0 else 1) <= i
  }

  /** Row i, read from the part of the buffer that has not been overwritten. */
  lemma {:induction false} RowIsUnread(m: RowsMerger, data0: seq<Byte>, items0: seq<Item>, p: Pending, i: nat)
    requires m.Valid() && m.Unread(data0, items0) && Inside(items0, |data0|) && i < |items0|
    requires HasRoom(m.dataLen, m.itemsLen, p, items0, i)
    ensures m.items[i] == items0[i] && m.dataLen + PendingLen(p) <= items0[i].start
    ensures m.data[items0[i].start..items0[i].end] == RowsOf(data0, items0)[i]
  {
    if i > 0 {
      assert items0[i - 1].end <= items0[i].start;
    }
  }

  /** Writes the pending ids and then a row as it is. */
  method WriteAsIs(m: RowsMerger, p: Pending, row: Row, ghost i: nat, ghost data0: seq<Byte>, ghost items0: seq<Item>)
    requires m.Valid() && m.Unread(data0, items0) && Inside(items0, |data0|) && i < |items0|
    requires HasRoom(m.dataLen, m.itemsLen, p, items0, i) && row == RowsOf(data0, items0)[i]
    requires m.dataLen + PendingLen(p) <= items0[i].start
    modifies m, m.data, m.items
    ensures m.Valid() && m.Unread(data0, items0)
    ensures HasRoom(m.dataLen, m.itemsLen, Pending(p.prefix, []), items0, i + 1)
    ensures m.out == Flushed(old(m.out), p) + [row]
  {
    m.FlushPendingStreamIDs(p, data0, items0);
    m.WriteRow(row, data0, items0);
  }

  /** Keeps the ids of a row for later. */
  method Collect(m: RowsMerger, p: Pending, row: Row, ghost i: nat, ghost data0: seq<Byte>, ghost items0: seq<Item>)
    returns (p': Pending)
    requires m.Valid() && m.Unread(data0, items0) && Inside(items0, |data0|) && i < |items0|
    requires HasRoom(m.dataLen, m.itemsLen, p, items0, i) && row == RowsOf(data0, items0)[i]
    requires m.dataLen + PendingLen(p) <= items0[i].start && ValidTagRow(row)
    modifies m, m.data, m.items
    ensures m.Valid() && m.Unread(data0, items0)
    ensures HasRoom(m.dataLen, m.itemsLen, p', items0, i + 1)
    ensures MergeState(m.out, p') == Collected(MergeState(old(m.out), p), row)
  {
    p' := p;
    if Prefix(row) != p.prefix {
      m.FlushPendingStreamIDs(p, data0, items0);
      p' := Pending(p.prefix, []);
    }
    p' := Pending(Prefix(row), p'.ids + RowIDs(row));
    if |p'.ids| >= MAX_STREAM_IDS_PER_ROW {
      m.FlushPendingStreamIDs(p', data0, items0);
      p' := Pending(p'.prefix, []);
    }
  }

  /** One row. */
  method MergeRow(m: RowsMerger, p: Pending, i: nat, ghost data0: seq<Byte>, ghost items0: seq<Item>) returns (p': Pending)
    requires m.Valid() && m.Unread(data0, items0) && Inside(items0, |data0|) && i < |items0|
    requires ValidRows(RowsOf(data0, items0)) && HasRoom(m.dataLen, m.itemsLen, p, items0, i)
    modifies m, m.data, m.items
    ensures m.Valid() && m.Unread(data0, items0)
    ensures HasRoom(m.dataLen, m.itemsLen, p', items0, i + 1)
    ensures IsStep(RowsOf(data0, items0), i, MergeState(old(m.out), p), MergeState(m.out, p'))
  {
    RowIsUnread(m, data0, items0, p, i);
    var item := m.data[m.items[i].start..m.items[i].end];
    assert item == RowsOf(data0, items0)[i];
    if !IsTagRow(item) || i == 0 || i == m.items.Length - 1 {
      WriteAsIs(m, p, item, i, data0, items0);
      return Pending(p.prefix, []);
    }
    if |Tail(item)| / STREAM_ID_LEN >= MAX_STREAM_IDS_PER_ROW {
      WriteAsIs(m, p, item, i, data0, items0);
      return Pending(p.prefix, []);
    }
    p' := Collect(m, p, item, i, data0, items0);
  }

  // ---------- The whole merge ----------

  method CheckItemsSorted(data: array<Byte>, items: array<Item>, dataLen: nat, itemsLen: nat) returns (ok: bool)
    requires itemsLen <= items.Length && dataLen <= data.Length && Inside(items[..itemsLen], dataLen)
    ensures ok == RowsSorted(RowsOf(data[..dataLen], items[..itemsLen]))
  {
    if itemsLen == 0 {
      return true;
    }
    ghost var rows := RowsOf(data[..dataLen], items[..itemsLen]);
    var prevItem := data[items[0].start..items[0].end];
    assert prevItem == rows[0] by {
      SameSlice(data, dataLen, items[0]);
    }
    for i := 1 to itemsLen
      invariant prevItem == rows[i - 1]
      invariant forall k :: 0 < k < i ==> BytesLeq(rows[k - 1], rows[k])
    {
      var currItem := data[items[i].start..items[i].end];
      SameSlice(data, dataLen, items[i]);
      assert items[..itemsLen][i] == items[i] && currItem == rows[i];
      if !BytesLeq(prevItem, currItem) {
        return false;
      }
      prevItem := currItem;
    }
    return true;
  }

  lemma {:induction false} SameSlice(data: array<Byte>, dataLen: nat, it: Item)
    requires it.start <= it.end <= dataLen <= data.Length
    ensures data[..dataLen][it.start..it.end] == data[it.start..it.end]
  {
  }

  /** The edges of sorted rows do not rule out that there are rows to merge. */
  ghost predicate HasTagRow(rows: seq<Row>) {
    && |rows| > 2
    && !(|rows[0]| > 0 && rows[0][0] > NS_TAG_TO_STREAM_IDS)
    && !(|rows[|rows| - 1]| > 0 && rows[|rows| - 1][0] < NS_TAG_TO_STREAM_IDS)
  }

  method CheckEdges(data: array<Byte>, items: array<Item>) returns (ok: bool)
    requires Inside(items[..], data.Length)
    ensures ok == HasTagRow(RowsOf(data[..], items[..]))
  {
    assert data[..data.Length] == data[..] && items[..items.Length] == items[..];
    if items.Length <= 2 {
      return false;
    }
    var firstItem := data[items[0].start..items[0].end];
    if |firstItem| > 0 && firstItem[0] > NS_TAG_TO_STREAM_IDS {
      return false;
    }
    var lastItem := data[items[items.Length - 1].start..items[items.Length - 1].end];
    return !(|lastItem| > 0 && lastItem[0] < NS_TAG_TO_STREAM_IDS);
  }

  /** Merges rows of the same tag inside the buffer they are read from. */
  method MergeTagToStreamIDsRows(data: array<Byte>, items: array<Item>) returns (dataLen: nat, itemsLen: nat)
    requires Inside(items[..], data.Length)
    requires ValidRows(RowsOf(data[..], items[..])) && RowsSorted(RowsOf(data[..], items[..]))
    modifies data, items
    ensures dataLen <= data.Length && itemsLen <= items.Length && Inside(items[..itemsLen], dataLen)
    ensures var rows, out := old(RowsOf(data[..], items[..])), RowsOf(data[..dataLen], items[..itemsLen]);
            (if HasTagRow(rows) then MergesTo(rows, out) else out == rows) && SameIndex(rows, out) && RowsSorted(out)
  {
    ghost var rows := RowsOf(data[..], items[..]);
    var ok := CheckEdges(data, items);
    if !ok {
      assert data[..data.Length] == data[..] && items[..items.Length] == items[..];
      return data.Length, items.Length;
    }
    dataLen, itemsLen := MergeOrRestore(data, items);
    ghost var out := RowsOf(data[..dataLen], items[..itemsLen]);
    MergeKeepsIndex(rows, out);
  }

  method MergeOrRestore(data: array<Byte>, items: array<Item>) returns (dataLen: nat, itemsLen: nat)
    requires Inside(items[..], data.Length) && items.Length > 0
    requires ValidRows(RowsOf(data[..], items[..])) && RowsSorted(RowsOf(data[..], items[..]))
    modifies data, items
    ensures dataLen <= data.Length && itemsLen <= items.Length && Inside(items[..itemsLen], dataLen)
    ensures MergesTo(old(RowsOf(data[..], items[..])), RowsOf(data[..dataLen], items[..itemsLen]))
  {
    ghost var rows, states := RowsOf(data[..], items[..]), [];
    var dataCopy, itemsCopy := data[..], items[..];
    dataLen, itemsLen, states := MergeAllRows(data, items);
    ghost var out := states[|rows|].out;
    var sorted := CheckItemsSorted(data, items, dataLen, itemsLen);
    if !sorted {
      Restore(data, items, dataCopy, itemsCopy);
      dataLen, itemsLen := data.Length, items.Length;
      assert data[..dataLen] == dataCopy && items[..itemsLen] == itemsCopy;
      // The storage panics when the unmerged rows are not sorted either.
      assert RowsSorted(RowsOf(data[..dataLen], items[..itemsLen]));
    }
    assert RowsOf(data[..dataLen], items[..itemsLen]) == SortedOr(out, rows);
    TraceEnd(rows, states);
    ghost var cuts := TraceIsJoined(rows, states);
  }

  method Restore(data: array<Byte>, items: array<Item>, dataCopy: seq<Byte>, itemsCopy: seq<Item>)
    requires |dataCopy| == data.Length && |itemsCopy| == items.Length
    modifies data, items
    ensures data[..] == dataCopy && items[..] == itemsCopy
  {
    forall k | 0 <= k < data.Length {
      data[k] := dataCopy[k];
    }
    forall k | 0 <= k < items.Length {
      items[k] := itemsCopy[k];
    }
  }

  method MergeAllRows(data: array<Byte>, items: array<Item>)
    returns (dataLen: nat, itemsLen: nat, ghost states: seq<MergeState>)
    requires Inside(items[..], data.Length) && ValidRows(RowsOf(data[..], items[..])) && items.Length > 0
    modifies data, items
    ensures dataLen <= data.Length && itemsLen <= items.Length && Inside(items[..itemsLen], dataLen)
    ensures IsTrace(old(RowsOf(data[..], items[..])), states)
    ensures RowsOf(data[..dataLen], items[..itemsLen]) == states[|states| - 1].out
  {
    ghost var data0, items0 := data[..], items[..];
    ghost var rows := RowsOf(data0, items0);
    var m := new RowsMerger(data, items);
    var p := Pending([], []);
    states := [MergeState(m.out, p)];
    for i := 0 to items.Length
      invariant fresh(m) && m.data == data && m.items == items
      invariant m.Valid() && m.Unread(data0, items0)
      invariant HasRoom(m.dataLen, m.itemsLen, p, items0, i)
      invariant |states| == i + 1 && states[i] == MergeState(m.out, p) && IsTraceOfFirst(rows, states, i)
    {
      p := MergeRow(m, p, i, data0, items0);
      LongerTrace(rows, states, i, MergeState(m.out, p));
      states := states + [MergeState(m.out, p)];
    }
    TraceEnd(rows, states);
    // The storage panics when stream ids are still pending.
    assert p.ids == [];
    dataLen, itemsLen := m.dataLen, m.itemsLen;
  }
}
