/** Log entries and their estimated JSON size. */
module LogEntries {

  datatype Field = Field(name: string, value: string)

  /** A log entry; its stream is known from the block it is stored in. */
  datatype Row = Row(timestamp: int, fields: seq<Field>)

  /** `{}`, a newline, the `_time` field and a timestamp with nanoseconds and a time zone. */
  const EMPTY_ROW_LEN: nat := 3 + 10 + 35

  function CanonicalColumnName(name: string): string {
    if name == "" then "_msg" else name
  }

  function EstimatedJSONFieldLen(name: string, value: string): nat {
    6 + |name| + |value|
  }

  /** Empty values are treated as missing fields. */
  function FieldLen(f: Field): nat {
    if f.value == "" then 0 else EstimatedJSONFieldLen(CanonicalColumnName(f.name), f.value)
  }

  function FieldsLen(fields: seq<Field>): nat {
    if fields == [] then 0 else FieldLen(fields[0]) + FieldsLen(fields[1..])
  }

  method EstimatedJSONRowLen(fields: seq<Field>) returns (n: nat)
    ensures n == RowLen(fields)
  {
    n := EMPTY_ROW_LEN;
    for i := 0 to |fields|
      invariant n + FieldsLen(fields[i..]) == RowLen(fields)
    {
      n := n + FieldLen(fields[i]);
    }
  }

  function RowLen(fields: seq<Field>): (n: nat)
    ensures n > 0
  {
    EMPTY_ROW_LEN + FieldsLen(fields)
  }

  // ---------- What the size estimates ----------

  /** The row as a line of JSON, without escapes. */
  ghost function JsonRow(time: string, fields: seq<Field>): string {
    "{\"_time\":\"" + time + "\"" + JsonFields(fields) + "}\n"
  }

  ghost function JsonFields(fields: seq<Field>): string {
    if fields == [] then "" else JsonField(fields[0]) + JsonFields(fields[1..])
  }

  /** A field without a value does not exist, and the field without a name is the message. */
  ghost function JsonField(f: Field): string {
    if f.value == "" then "" else ",\"" + (if f.name == "" then "_msg" else f.name) + "\":\"" + f.value + "\""
  }

  lemma {:induction false} FieldsLenIsLength(fields: seq<Field>)
    ensures FieldsLen(fields) == |JsonFields(fields)|
  {
    if fields != [] {
      FieldsLenIsLength(fields[1..]);
    }
  }

  /** With the longest timestamp, the size is the length of the line. */
  lemma {:induction false} RowLenIsLength(time: string, fields: seq<Field>)
    requires |time| == |"2006-01-02T15:04:05.999999999Z07:00"|
    ensures RowLen(fields) == |JsonRow(time, fields)|
  {
    FieldsLenIsLength(fields);
  }

  function RowsSize(rows: seq<Row>): nat {
    if rows == [] then 0 else RowLen(rows[0].fields) + RowsSize(rows[1..])
  }

  lemma {:induction false} RowsSizeConcat(a: seq<Row>, b: seq<Row>)
    ensures RowsSize(a + b) == RowsSize(a) + RowsSize(b)
  {
    if a == [] {
      assert a + b == b;
    } else {
      assert (a + b)[1..] == a[1..] + b;
      RowsSizeConcat(a[1..], b);
    }
  }

  /** The size of a list of rows does not depend on their order. */
  lemma {:induction false} RowsSizeOfPermutation(a: seq<Row>, b: seq<Row>)
    requires multiset(a) == multiset(b)
    ensures RowsSize(a) == RowsSize(b)
  {
    if a == [] {
      assert |b| == |multiset(b)| == 0;
    } else {
      assert a[0] in multiset(b);
      var i :| 0 <= i < |b| && b[i] == a[0];
      RowsSizeOfRest(a, 0);
      RowsSizeOfRest(b, i);
      RowsSizeOfPermutation(Without(a, 0), Without(b, i));
    }
  }

  function Without<T>(xs: seq<T>, i: nat): (rest: seq<T>)
    requires i < |xs|
    ensures |rest| == |xs| - 1
  {
    xs[..i] + xs[i + 1..]
  }

  lemma {:induction false} MultisetOfRest(rows: seq<Row>, i: nat)
    requires i < |rows|
    ensures multiset(Without(rows, i)) == multiset(rows) - multiset{rows[i]}
  {
    assert rows == rows[..i] + [rows[i]] + rows[i + 1..];
  }

  lemma {:induction false} SizeOfRest(rows: seq<Row>, i: nat)
    requires i < |rows|
    ensures RowsSize(rows) == RowLen(rows[i].fields) + RowsSize(Without(rows, i))
  {
    if i == 0 {
      assert Without(rows, 0) == rows[1..];
    } else {
      assert Without(rows, i)[0] == rows[0] && Without(rows, i)[1..] == Without(rows[1..], i - 1);
      SizeOfRest(rows[1..], i - 1);
    }
  }

  lemma {:induction false} RowsSizeOfRest(rows: seq<Row>, i: nat)
    requires i < |rows|
    ensures RowsSize(rows) == RowLen(rows[i].fields) + RowsSize(Without(rows, i))
    ensures multiset(Without(rows, i)) == multiset(rows) - multiset{rows[i]}
  {
    MultisetOfRest(rows, i);
    SizeOfRest(rows, i);
  }

  lemma {:induction false} RowsSizePositive(rows: seq<Row>)
    ensures RowsSize(rows) >= |rows|
  {
    if rows != [] {
      RowsSizePositive(rows[1..]);
    }
  }

  ghost predicate SortedByTime(rows: seq<Row>) {
    forall i, j :: 0 <= i < j < |rows| ==> rows[i].timestamp <= rows[j].timestamp
  }

  lemma {:induction false} RunGoesFirst(merged: seq<Row>, a: seq<Row>, b: seq<Row>, i: nat)
    requires SortedByTime(merged + a) && SortedByTime(merged + b) && i <= |a| && |b| > 0
    requires i > 0 ==> a[i - 1].timestamp <= b[0].timestamp
    ensures SortedByTime(merged + a[..i] + b)
    ensures merged + a[..i] + a[i..] == merged + a
  {
    var m, n := |merged|, |merged| + i;
    var all := merged + a[..i] + b;
    forall j, k | 0 <= j < k < |all| ensures all[j].timestamp <= all[k].timestamp {
      assert k < n ==> all[j] == (merged + a)[j] && all[k] == (merged + a)[k];
      assert k >= n ==> all[k] == (merged + b)[k - i] && b[0] == (merged + b)[m];
      assert j < m ==> all[j] == (merged + b)[j];
      assert m <= j < n ==> all[j] == (merged + a)[j] && a[i - 1] == (merged + a)[n - 1];
      assert n <= j ==> all[j] == (merged + b)[j - i];
    }
  }

  /** Merges two time-ordered lists: the longest run of a that may go first is moved at once,
      then the lists change places. */
  method MergeRows(a0: seq<Row>, b0: seq<Row>) returns (merged: seq<Row>)
    requires SortedByTime(a0) && SortedByTime(b0)
    ensures SortedByTime(merged)
    ensures multiset(merged) == multiset(a0) + multiset(b0)
  {
    var a, b := a0, b0;
    merged := [];
    assert [] + a0 == a0 && [] + b0 == b0;
    while |a| > 0 && |b| > 0
      invariant Merging(merged, a, b, a0, b0)
      decreases |a| + |b|, if |a| > 0 && |b| > 0 && a[0].timestamp > b[0].timestamp then 1 else 0
    {
      var i := RunLen(a, b[0].timestamp);
      MergeTurn(merged, a, b, a0, b0, i);
      merged, a, b := merged + a[..i], b, a[i..];
    }
    MergeEnds(merged, a, b, a0, b0);
    merged := merged + (if |a| == 0 then b else a);
  }

  /** How many rows at the start go before the other list. */
  method RunLen(a: seq<Row>, minTimestamp: int) returns (i: nat)
    ensures i <= |a| && (i > 0 ==> a[i - 1].timestamp <= minTimestamp)
    ensures i == 0 ==> |a| == 0 || a[0].timestamp > minTimestamp
  {
    i := 0;
    while i < |a| && a[i].timestamp <= minTimestamp
      invariant 0 <= i <= |a|
      invariant i > 0 ==> a[i - 1].timestamp <= minTimestamp
    {
      i := i + 1;
    }
  }

  /** What has been merged, and what is left of both lists. */
  ghost predicate Merging(merged: seq<Row>, a: seq<Row>, b: seq<Row>, a0: seq<Row>, b0: seq<Row>) {
    SortedByTime(merged + a) && SortedByTime(merged + b) && multiset(merged) + multiset(a) + multiset(b) == multiset(a0) + multiset(b0)
  }

  lemma {:induction false} MergeTurn(merged: seq<Row>, a: seq<Row>, b: seq<Row>, a0: seq<Row>, b0: seq<Row>, i: nat)
    requires Merging(merged, a, b, a0, b0) && i <= |a| && |b| > 0 && (i > 0 ==> a[i - 1].timestamp <= b[0].timestamp)
    ensures Merging(merged + a[..i], b, a[i..], a0, b0)
  {
    RunGoesFirst(merged, a, b, i);
    assert a == a[..i] + a[i..];
  }

  lemma {:induction false} MergeEnds(merged: seq<Row>, a: seq<Row>, b: seq<Row>, a0: seq<Row>, b0: seq<Row>)
    requires Merging(merged, a, b, a0, b0) && (a == [] || b == [])
    ensures var all := merged + (if |a| == 0 then b else a);
            SortedByTime(all) && multiset(all) == multiset(a0) + multiset(b0)
  {
  }

  /** The merged list starts at the smaller of the two starts. */
  lemma {:induction false} MergedMinimum(merged: seq<Row>, a: seq<Row>, b: seq<Row>)
    requires SortedByTime(merged) && multiset(merged) == multiset(a) + multiset(b)
    requires SortedByTime(a) && SortedByTime(b) && b != []
    requires a != [] ==> a[0].timestamp <= b[0].timestamp
    ensures |merged| == |a| + |b|
    ensures merged[0].timestamp == (if a == [] then b else a)[0].timestamp
    ensures RowsSize(merged) == RowsSize(a) + RowsSize(b)
  {
    assert |merged| == |multiset(merged)|;
    assert merged[0] in multiset(a) + multiset(b);
    assert (if a == [] then b else a)[0] in multiset(merged);
    RowsSizeOfPermutation(merged, a + b);
    RowsSizeConcat(a, b);
  }
}
