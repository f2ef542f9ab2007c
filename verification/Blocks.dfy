/** Turning rows into columns and back. */
module Blocks {
  import opened LogEntries
  import opened Sorting

  const MAX_COLUMNS_PER_BLOCK: nat := 2000
  const MAX_CONST_COLUMN_VALUE_SIZE: nat := 256

  type Fields = seq<Field>

  datatype Column = Column(name: string, values: seq<string>)

  // ---------- Rows as name-to-value maps ----------

  /** The value of the field with the given name; a missing field reads as an empty value. */
  function GetFieldValueByName(fields: Fields, name: string): string {
    if fields == [] then "" else if fields[0].name == name then fields[0].value
    else GetFieldValueByName(fields[1..], name)
  }

  ghost predicate DistinctNames(fields: Fields) {
    forall i, j :: 0 <= i < j < |fields| ==> fields[i].name != fields[j].name
  }

  /** The same row for every query. */
  ghost predicate SameFields(a: Fields, b: Fields) {
    forall name :: GetFieldValueByName(a, name) == GetFieldValueByName(b, name)
  }

  lemma {:induction false} ValueOfField(fields: Fields, i: nat)
    requires DistinctNames(fields) && i < |fields|
    ensures GetFieldValueByName(fields, fields[i].name) == fields[i].value
  {
    if i > 0 {
      ValueOfField(fields[1..], i - 1);
    }
  }

  lemma {:induction false} ValueOfMissing(fields: Fields, name: string)
    requires forall i :: 0 <= i < |fields| ==> fields[i].name != name || fields[i].value == ""
    ensures GetFieldValueByName(fields, name) == ""
  {
    if fields != [] && fields[0].name != name {
      ValueOfMissing(fields[1..], name);
    }
  }

  lemma {:induction false} ValueIsSomewhere(fields: Fields, name: string)
    ensures GetFieldValueByName(fields, name) == ""
            || exists i :: 0 <= i < |fields| && fields[i] == Field(name, GetFieldValueByName(fields, name))
  {
    if fields != [] {
      if fields[0].name == name {
        assert fields[0] == Field(name, fields[0].value);
      } else {
        ValueIsSomewhere(fields[1..], name);
        if GetFieldValueByName(fields, name) != "" {
          var i :| 0 <= i < |fields[1..]| && fields[1..][i] == Field(name, GetFieldValueByName(fields, name));
          assert fields[i + 1] == fields[1..][i];
        }
      }
    }
  }

  lemma {:induction false} FieldsLenConcat(a: Fields, b: Fields)
    ensures FieldsLen(a + b) == FieldsLen(a) + FieldsLen(b)
  {
    if a == [] {
      assert a + b == b;
    } else {
      assert (a + b)[1..] == a[1..] + b;
      FieldsLenConcat(a[1..], b);
    }
  }

  lemma {:induction false} LookupWithout(fields: Fields, i: nat, name: string)
    requires DistinctNames(fields) && i < |fields|
    ensures DistinctNames(Without(fields, i))
    ensures GetFieldValueByName(Without(fields, i), name) ==
            if name == fields[i].name then "" else GetFieldValueByName(fields, name)
    ensures FieldsLen(fields) == FieldLen(fields[i]) + FieldsLen(Without(fields, i))
  {
    WithoutAt(fields, i);
    if i == 0 {
      if name == fields[0].name {
        ValueOfMissing(fields[1..], name);
      }
    } else {
      LookupWithout(fields[1..], i - 1, name);
    }
  }

  lemma {:induction false} WithoutAt(fields: Fields, i: nat)
    requires DistinctNames(fields) && i < |fields|
    ensures DistinctNames(Without(fields, i))
    ensures if i == 0 then Without(fields, i) == fields[1..]
            else Without(fields, i)[0] == fields[0] && Without(fields, i)[1..] == Without(fields[1..], i - 1)
  {
    var rest := Without(fields, i);
    assert forall k :: 0 <= k < |rest| ==> rest[k] == fields[if k < i then k else k + 1];
  }

  /** The estimated length of a row depends on its name-to-value map only. */
  lemma {:induction false} SameFieldsSameLen(a: Fields, b: Fields)
    requires DistinctNames(a) && DistinctNames(b) && SameFields(a, b)
    ensures FieldsLen(a) == FieldsLen(b)
    decreases |a| + |b|
  {
    if a == [] {
      if b != [] {
        ValueOfField(b, 0);
        assert GetFieldValueByName(a, b[0].name) == "";
        forall name ensures GetFieldValueByName(b[1..], name) == "" {
          LookupWithout(b, 0, name);
          assert Without(b, 0) == b[1..];
          assert GetFieldValueByName(a, name) == GetFieldValueByName(b, name);
        }
        SameFieldsSameLen([], b[1..]);
      }
    } else if a[0].value == "" {
      forall name ensures GetFieldValueByName(a[1..], name) == GetFieldValueByName(b, name) {
        LookupWithout(a, 0, name);
        assert Without(a, 0) == a[1..];
      }
      SameFieldsSameLen(a[1..], b);
    } else {
      ValueIsSomewhere(b, a[0].name);
      assert GetFieldValueByName(b, a[0].name) == a[0].value;
      var j :| 0 <= j < |b| && b[j] == a[0];
      forall name ensures GetFieldValueByName(a[1..], name) == GetFieldValueByName(Without(b, j), name) {
        LookupWithout(a, 0, name);
        LookupWithout(b, j, name);
        assert Without(a, 0) == a[1..];
      }
      LookupWithout(b, j, "");
      SameFieldsSameLen(a[1..], Without(b, j));
    }
  }

  function Names(fields: Fields): set<string> {
    if fields == [] then {} else Names(fields[..|fields| - 1]) + {fields[|fields| - 1].name}
  }

  lemma {:induction false} NameIsIn(fields: Fields, k: nat)
    requires k < |fields|
    ensures fields[k].name in Names(fields)
  {
    if k < |fields| - 1 {
      NameIsIn(fields[..|fields| - 1], k);
    }
  }

  lemma {:induction false} NameIsSomewhere(fields: Fields, name: string) returns (k: nat)
    requires name in Names(fields)
    ensures k < |fields| && fields[k].name == name
  {
    if fields[|fields| - 1].name == name {
      k := |fields| - 1;
    } else {
      k := NameIsSomewhere(fields[..|fields| - 1], name);
    }
  }

  ghost function AllNames(rows: seq<Fields>): set<string> {
    if rows == [] then {} else Names(rows[0]) + AllNames(rows[1..])
  }

  lemma {:induction false} NamesOfRow(rows: seq<Fields>, i: nat)
    requires i < |rows|
    ensures Names(rows[i]) <= AllNames(rows)
  {
    if i > 0 {
      NamesOfRow(rows[1..], i - 1);
    }
  }

  lemma {:induction false} RowOfName(rows: seq<Fields>, name: string) returns (i: nat, k: nat)
    requires name in AllNames(rows)
    ensures i < |rows| && k < |rows[i]| && rows[i][k].name == name
  {
    if name in Names(rows[0]) {
      i := 0;
      k := NameIsSomewhere(rows[0], name);
    } else {
      i, k := RowOfName(rows[1..], name);
      i := i + 1;
    }
  }

  lemma {:induction false} AllNamesAppend(rows: seq<Fields>, fields: Fields)
    ensures AllNames(rows + [fields]) == AllNames(rows) + Names(fields)
  {
    if rows != [] {
      assert (rows + [fields])[1..] == rows[1..] + [fields];
      AllNamesAppend(rows[1..], fields);
    }
  }

  // ---------- Repeated names ----------

  ghost function Others(fields: Fields, name: string): Fields {
    if fields == [] then [] else (if fields[0].name == name then [] else [fields[0]]) + Others(fields[1..], name)
  }

  /** The last field of every name. */
  ghost function Latest(fields: Fields): Fields {
    if fields == [] then []
    else
      var n := |fields| - 1;
      Others(Latest(fields[..n]), fields[n].name) + [fields[n]]
  }

  ghost function AllLatest(rows: seq<Fields>): (latest: seq<Fields>)
    ensures |latest| == |rows| && forall i :: 0 <= i < |rows| ==> latest[i] == Latest(rows[i])
  {
    seq(|rows|, i requires 0 <= i < |rows| => Latest(rows[i]))
  }

  lemma {:induction false} OtherValue(fields: Fields, drop: string, name: string)
    ensures GetFieldValueByName(Others(fields, drop), name) == if name == drop then "" else GetFieldValueByName(fields, name)
    ensures forall k :: 0 <= k < |Others(fields, drop)| ==> Others(fields, drop)[k].name != drop
  {
    if fields != [] {
      var tail := Others(fields[1..], drop);
      OtherValue(fields[1..], drop, name);
      assert ([fields[0]] + tail)[1..] == tail && [] + tail == tail;
    }
  }

  lemma {:induction false} OtherFieldIsThere(fields: Fields, drop: string, k: nat) returns (i: nat)
    requires k < |Others(fields, drop)|
    ensures i < |fields| && fields[i] == Others(fields, drop)[k]
  {
    if fields[0].name != drop && k == 0 {
      i := 0;
    } else {
      i := OtherFieldIsThere(fields[1..], drop, if fields[0].name == drop then k else k - 1);
      i := i + 1;
    }
  }

  lemma {:induction false} OthersAreDistinct(fields: Fields, drop: string)
    requires DistinctNames(fields)
    ensures DistinctNames(Others(fields, drop))
  {
    if fields != [] {
      var tail := Others(fields[1..], drop);
      OthersAreDistinct(fields[1..], drop);
      forall k | 0 <= k < |tail| ensures tail[k].name != fields[0].name {
        var i := OtherFieldIsThere(fields[1..], drop, k);
        assert fields[i + 1] == tail[k];
      }
    }
  }

  lemma {:induction false} NoneIsDropped(fields: Fields, drop: string)
    requires forall k :: 0 <= k < |fields| ==> fields[k].name != drop
    ensures Others(fields, drop) == fields
  {
    if fields != [] {
      NoneIsDropped(fields[1..], drop);
    }
  }

  /** With one more field, its name has the value of that field. */
  lemma {:induction false} LatestValue(fields: Fields, name: string)
    requires fields != []
    ensures var n := |fields| - 1;
            GetFieldValueByName(Latest(fields), name) ==
              if name == fields[n].name then fields[n].value else GetFieldValueByName(Latest(fields[..n]), name)
  {
    var n := |fields| - 1;
    var others := Others(Latest(fields[..n]), fields[n].name);
    OtherValue(Latest(fields[..n]), fields[n].name, name);
    LookupConcat(others, [fields[n]], name);
    if forall k :: 0 <= k < |others| ==> others[k].name != name {
      ValueOfMissing(others, name);
    }
  }

  lemma {:induction false} LatestAreDistinct(fields: Fields)
    ensures DistinctNames(Latest(fields))
  {
    if fields != [] {
      var n := |fields| - 1;
      var front := Latest(fields[..n]);
      LatestAreDistinct(fields[..n]);
      OthersAreDistinct(front, fields[n].name);
      OtherValue(front, fields[n].name, "");
    }
  }

  lemma {:induction false} LatestIsSame(fields: Fields)
    requires DistinctNames(fields)
    ensures Latest(fields) == fields
  {
    if fields != [] {
      var n := |fields| - 1;
      LatestIsSame(fields[..n]);
      NoneIsDropped(fields[..n], fields[n].name);
      assert fields == fields[..n] + [fields[n]];
    }
  }

  lemma {:induction false} NamesOfOthers(fields: Fields, drop: string, name: string)
    ensures name in Names(Others(fields, drop)) <==> name in Names(fields) && name != drop
  {
    if fields != [] {
      NamesOfOthers(fields[1..], drop, name);
      NamesOfConcat([fields[0]], fields[1..]);
      assert fields == [fields[0]] + fields[1..] && [fields[0]][..0] == [];
      NamesOfConcat(if fields[0].name == drop then [] else [fields[0]], Others(fields[1..], drop));
    }
  }

  lemma {:induction false} NamesOfConcat(a: Fields, b: Fields)
    ensures Names(a + b) == Names(a) + Names(b)
  {
    if b == [] {
      assert a + b == a;
    } else {
      NamesOfConcat(a, b[..|b| - 1]);
      assert (a + b)[..|a + b| - 1] == a + b[..|b| - 1];
    }
  }

  lemma {:induction false} NamesOfLatest(fields: Fields)
    ensures Names(Latest(fields)) == Names(fields)
  {
    if fields != [] {
      var n := |fields| - 1;
      var front := Latest(fields[..n]);
      NamesOfLatest(fields[..n]);
      NamesOfConcat(Others(front, fields[n].name), [fields[n]]);
      assert [fields[n]][..0] == [];
      forall name ensures name in Names(Latest(fields)) <==> name in Names(fields) {
        NamesOfOthers(front, fields[n].name, name);
      }
    }
  }

  lemma {:induction false} AllNamesOfLatest(rows: seq<Fields>)
    ensures AllNames(AllLatest(rows)) == AllNames(rows)
  {
    if rows != [] {
      NamesOfLatest(rows[0]);
      AllNamesOfLatest(rows[1..]);
      assert AllLatest(rows)[1..] == AllLatest(rows[1..]);
    }
  }

  /** Nothing changes without repeated names. */
  lemma {:induction false} LatestOfDistinct(rows: seq<Fields>)
    ensures forall i :: 0 <= i < |rows| ==> DistinctNames(AllLatest(rows)[i])
    ensures (forall i :: 0 <= i < |rows| ==> DistinctNames(rows[i])) ==> AllLatest(rows) == rows
  {
    forall i | 0 <= i < |rows| ensures DistinctNames(AllLatest(rows)[i]) && (DistinctNames(rows[i]) ==> AllLatest(rows)[i] == rows[i]) {
      LatestAreDistinct(rows[i]);
      if DistinctNames(rows[i]) {
        LatestIsSame(rows[i]);
      }
    }
  }

  // ---------- Blocks as name-to-value maps ----------

  /** The fields a block gives back for row i: const columns, then the non-empty columns. */
  function ColumnFields(columns: seq<Column>, i: nat): (fields: Fields)
    requires forall c :: c in columns ==> i < |c.values|
  {
    if columns == [] then []
    else
      var f := Field(columns[0].name, columns[0].values[i]);
      (if |f.value| == 0 then [] else [f]) + ColumnFields(columns[1..], i)
  }

  ghost predicate DistinctColumns(columns: seq<Column>, constColumns: Fields) {
    && (forall i, j :: 0 <= i < j < |columns| ==> columns[i].name != columns[j].name)
    && DistinctNames(constColumns)
    && forall i, j :: 0 <= i < |columns| && 0 <= j < |constColumns| ==> columns[i].name != constColumns[j].name
  }

  /** The columns hold exactly the values of the rows. */
  ghost predicate Holds(columns: seq<Column>, constColumns: Fields, rows: seq<Fields>) {
    && DistinctColumns(columns, constColumns)
    && (forall c :: 0 <= c < |columns| ==> ColumnHolds(columns[c], rows))
    && (forall c :: 0 <= c < |constColumns| ==> ConstHolds(constColumns[c], rows))
    && CoversExactly(columns, constColumns, AllNames(rows))
  }

  /** There is a column for every one of the names and for no other. */
  ghost predicate CoversExactly(columns: seq<Column>, constColumns: Fields, names: set<string>) {
    forall name :: Covered(columns, constColumns, name) <==> name in names
  }

  ghost predicate ColumnHolds(c: Column, rows: seq<Fields>) {
    |c.values| == |rows|
    && forall i :: 0 <= i < |rows| ==> c.values[i] == GetFieldValueByName(rows[i], c.name)
  }

  ghost predicate ConstHolds(cc: Field, rows: seq<Fields>) {
    forall i :: 0 <= i < |rows| ==> cc.value == GetFieldValueByName(rows[i], cc.name)
  }

  ghost predicate Covered(columns: seq<Column>, constColumns: Fields, name: string) {
    HasColumn(columns, name) || exists c :: 0 <= c < |constColumns| && constColumns[c].name == name
  }

  ghost predicate HasColumn(columns: seq<Column>, name: string) {
    exists c :: 0 <= c < |columns| && columns[c].name == name
  }

  /** A value short enough and the same in all rows is stored once. */
  predicate ConstStorable(values: seq<string>) {
    |values| > 0 ==> |values[0]| <= 256 && forall i :: 0 <= i < |values| ==> values[i] == values[0]
  }

  ghost predicate DistinctColumnNames(columns: seq<Column>) {
    forall i, j :: 0 <= i < j < |columns| ==> columns[i].name != columns[j].name
  }

  lemma {:induction false} ColumnFieldsNames(columns: seq<Column>, i: nat)
    requires forall c :: c in columns ==> i < |c.values|
    requires DistinctColumnNames(columns)
    ensures var fields := ColumnFields(columns, i);
            DistinctNames(fields) && forall k :: 0 <= k < |fields| ==> HasColumn(columns, fields[k].name)
  {
    if columns != [] {
      var fields, tail := ColumnFields(columns, i), ColumnFields(columns[1..], i);
      ColumnFieldsNames(columns[1..], i);
      forall k | 0 <= k < |tail| ensures HasColumn(columns, tail[k].name) && tail[k].name != columns[0].name {
        var c :| 0 <= c < |columns[1..]| && columns[1..][c].name == tail[k].name;
        assert columns[c + 1] == columns[1..][c];
      }
      assert HasColumn(columns, columns[0].name);
    }
  }

  lemma {:induction false} ColumnFieldsValue(columns: seq<Column>, i: nat, c: nat)
    requires forall c :: c in columns ==> i < |c.values|
    requires DistinctColumnNames(columns) && c < |columns|
    ensures GetFieldValueByName(ColumnFields(columns, i), columns[c].name) == columns[c].values[i]
  {
    if |columns[0].values[i]| > 0 {
      assert ColumnFields(columns, i)[1..] == ColumnFields(columns[1..], i);
    } else {
      assert ColumnFields(columns, i) == ColumnFields(columns[1..], i);
    }
    if c == 0 {
      ColumnFieldsMissing(columns[1..], i, columns[0].name);
    } else {
      ColumnFieldsValue(columns[1..], i, c - 1);
    }
  }

  lemma {:induction false} ColumnFieldsMissing(columns: seq<Column>, i: nat, name: string)
    requires forall c :: c in columns ==> i < |c.values|
    requires DistinctColumnNames(columns) && !HasColumn(columns, name)
    ensures GetFieldValueByName(ColumnFields(columns, i), name) == ""
  {
    ColumnFieldsNames(columns, i);
    ValueOfMissing(ColumnFields(columns, i), name);
  }

  lemma {:induction false} LookupConcat(a: Fields, b: Fields, name: string)
    ensures GetFieldValueByName(a + b, name) ==
            if exists k :: 0 <= k < |a| && a[k].name == name then GetFieldValueByName(a, name)
            else GetFieldValueByName(b, name)
  {
    if a == [] {
      assert a + b == b;
    } else {
      assert (a + b)[1..] == a[1..] + b;
      LookupConcat(a[1..], b, name);
      if a[0].name != name && exists k :: 0 <= k < |a| && a[k].name == name {
        var k :| 0 <= k < |a| && a[k].name == name;
        assert a[1..][k - 1].name == name;
      }
    }
  }

  lemma {:induction false} MissingInRow(rows: seq<Fields>, i: nat, name: string)
    requires i < |rows| && name !in AllNames(rows)
    ensures GetFieldValueByName(rows[i], name) == ""
  {
    ValueIsSomewhere(rows[i], name);
    if k :| 0 <= k < |rows[i]| && rows[i][k] == Field(name, GetFieldValueByName(rows[i], name)) {
      NameIsIn(rows[i], k);
      NamesOfRow(rows, i);
    }
  }

  /** What a block gives back for a row is the same row for every query. */
  lemma {:induction false} RowComesBack(columns: seq<Column>, constColumns: Fields, rows: seq<Fields>, i: nat)
    requires Holds(columns, constColumns, rows) && i < |rows|
    requires forall c :: c in columns ==> i < |c.values|
    ensures SameFields(constColumns + ColumnFields(columns, i), rows[i])
    ensures DistinctNames(constColumns + ColumnFields(columns, i))
  {
    var fields := ColumnFields(columns, i);
    ColumnFieldsNames(columns, i);
    forall name ensures GetFieldValueByName(constColumns + fields, name) == GetFieldValueByName(rows[i], name) {
      LookupConcat(constColumns, fields, name);
      if k :| 0 <= k < |constColumns| && constColumns[k].name == name {
        ValueOfField(constColumns, k);
        assert ConstHolds(constColumns[k], rows);
      } else if HasColumn(columns, name) {
        var c :| 0 <= c < |columns| && columns[c].name == name;
        ColumnFieldsValue(columns, i, c);
        assert ColumnHolds(columns[c], rows);
      } else {
        ColumnFieldsMissing(columns, i, name);
        assert !Covered(columns, constColumns, name);
        MissingInRow(rows, i, name);
      }
    }
  }

  // ---------- Sizes ----------

  function ColumnsLen(columns: seq<Column>, i: nat): nat
    requires forall c :: c in columns ==> i < |c.values|
  {
    if columns == [] then 0
    else FieldLen(Field(columns[0].name, columns[0].values[i])) + ColumnsLen(columns[1..], i)
  }

  /** The lengths of the first n values of a column. */
  function ValuesLen(c: Column, n: nat): nat
    requires n <= |c.values|
  {
    if n == 0 then 0 else ValuesLen(c, n - 1) + FieldLen(Field(c.name, c.values[n - 1]))
  }

  /** Column by column, as a block adds them up. */
  function AllValuesLen(columns: seq<Column>, n: nat): nat
    requires forall c :: c in columns ==> n <= |c.values|
  {
    if columns == [] then 0 else ValuesLen(columns[0], n) + AllValuesLen(columns[1..], n)
  }

  /** A block counts a const column in every row, even when its value is empty. */
  function ConstColumnsLen(constColumns: Fields): nat {
    if constColumns == [] then 0
    else EstimatedJSONFieldLen(CanonicalColumnName(constColumns[0].name), constColumns[0].value)
         + ConstColumnsLen(constColumns[1..])
  }

  /** The part of `ConstColumnsLen` that belongs to columns that are empty in all rows. */
  function EmptyColumnsLen(constColumns: Fields): nat {
    if constColumns == [] then 0
    else (if constColumns[0].value == "" then EstimatedJSONFieldLen(CanonicalColumnName(constColumns[0].name), "") else 0)
         + EmptyColumnsLen(constColumns[1..])
  }

  lemma {:induction false} ConstColumnsLenSplit(constColumns: Fields)
    ensures ConstColumnsLen(constColumns) == FieldsLen(constColumns) + EmptyColumnsLen(constColumns)
    ensures EmptyColumnsLen(constColumns) == 0 <==>
            forall k :: 0 <= k < |constColumns| ==> constColumns[k].value != ""
  {
    if constColumns != [] {
      ConstColumnsLenSplit(constColumns[1..]);
      assert forall k :: 0 < k < |constColumns| ==> constColumns[k] == constColumns[1..][k - 1];
      if EmptyColumnsLen(constColumns) == 0 {
        forall k | 0 <= k < |constColumns| ensures constColumns[k].value != "" {
          if k > 0 {
            assert constColumns[1..][k - 1].value != "";
          }
        }
      }
    }
  }

  lemma {:induction false} ColumnFieldsLen(columns: seq<Column>, i: nat)
    requires forall c :: c in columns ==> i < |c.values|
    ensures FieldsLen(ColumnFields(columns, i)) == ColumnsLen(columns, i)
  {
    if columns != [] {
      ColumnFieldsLen(columns[1..], i);
      var f := Field(columns[0].name, columns[0].values[i]);
      if |f.value| == 0 {
        assert ColumnFields(columns, i) == ColumnFields(columns[1..], i);
      } else {
        assert ColumnFields(columns, i)[1..] == ColumnFields(columns[1..], i);
      }
    }
  }

  lemma {:induction false} AllValuesLenGrows(columns: seq<Column>, n: nat)
    requires forall c :: c in columns ==> n < |c.values|
    ensures AllValuesLen(columns, n + 1) == AllValuesLen(columns, n) + ColumnsLen(columns, n)
  {
    if columns != [] {
      AllValuesLenGrows(columns[1..], n);
    }
  }

  lemma {:induction false} AllValuesLenOfNone(columns: seq<Column>)
    ensures AllValuesLen(columns, 0) == 0
  {
    if columns != [] {
      AllValuesLenOfNone(columns[1..]);
    }
  }

  function FieldsSize(rows: seq<Fields>): nat {
    if rows == [] then 0 else FieldsSize(rows[..|rows| - 1]) + RowLen(rows[|rows| - 1])
  }

  lemma {:induction false} RowSizeFromColumns(columns: seq<Column>, constColumns: Fields, rows: seq<Fields>, i: nat)
    requires Holds(columns, constColumns, rows) && i < |rows|
    requires forall c :: c in columns ==> i < |c.values|
    requires DistinctNames(rows[i])
    ensures EMPTY_ROW_LEN + ConstColumnsLen(constColumns) + ColumnsLen(columns, i)
            == RowLen(rows[i]) + EmptyColumnsLen(constColumns)
  {
    RowComesBack(columns, constColumns, rows, i);
    SameFieldsSameLen(constColumns + ColumnFields(columns, i), rows[i]);
    FieldsLenConcat(constColumns, ColumnFields(columns, i));
    ColumnFieldsLen(columns, i);
    ConstColumnsLenSplit(constColumns);
  }

  lemma {:induction false} OneMore(k: nat, n: nat)
    ensures k * (n + 1) == k * n + k
  {
  }

  lemma {:induction false} SumsAgree(columns: seq<Column>, rows: seq<Fields>, perRow: nat, extra: nat, n: nat)
    requires n <= |rows| && forall c :: c in columns ==> |c.values| == |rows|
    requires forall i :: 0 <= i < |rows| ==> perRow + ColumnsLen(columns, i) == RowLen(rows[i]) + extra
    ensures perRow * n + AllValuesLen(columns, n) == FieldsSize(rows[..n]) + extra * n
  {
    if n == 0 {
      AllValuesLenOfNone(columns);
    } else {
      var i := n - 1;
      SumsAgree(columns, rows, perRow, extra, i);
      AllValuesLenGrows(columns, i);
      assert rows[..n][..i] == rows[..i];
      OneMore(perRow, i);
      OneMore(extra, i);
      assert perRow + ColumnsLen(columns, i) == RowLen(rows[i]) + extra;
    }
  }

  /** Some field is named in the rows but empty in all of them. */
  ghost predicate HasEmptyName(rows: seq<Fields>) {
    exists name :: name in AllNames(rows) && EmptyIn(rows, name)
  }

  ghost predicate EmptyIn(rows: seq<Fields>, name: string) {
    forall i :: 0 <= i < |rows| ==> GetFieldValueByName(rows[i], name) == ""
  }

  lemma {:induction false} NoEmptyName(rows: seq<Fields>)
    requires forall i :: 0 <= i < |rows| ==> DistinctNames(rows[i])
    requires forall i, k :: 0 <= i < |rows| && 0 <= k < |rows[i]| ==> rows[i][k].value != ""
    ensures !HasEmptyName(rows)
  {
    forall name | name in AllNames(rows) ensures !EmptyIn(rows, name) {
      var i, k := RowOfName(rows, name);
      ValueOfField(rows[i], k);
    }
  }

  lemma {:induction false} EmptyConstColumns(columns: seq<Column>, constColumns: Fields, rows: seq<Fields>)
    requires Holds(columns, constColumns, rows) && rows != []
    requires forall c :: 0 <= c < |columns| ==> !ConstStorable(columns[c].values)
    ensures HasEmptyName(rows) <==> exists k :: 0 <= k < |constColumns| && constColumns[k].value == ""
  {
    if k :| 0 <= k < |constColumns| && constColumns[k].value == "" {
      assert ConstHolds(constColumns[k], rows);
      assert Covered(columns, constColumns, constColumns[k].name);
      assert EmptyIn(rows, constColumns[k].name);
    }
    if name :| name in AllNames(rows) && EmptyIn(rows, name) {
      assert Covered(columns, constColumns, name);
      forall c | 0 <= c < |columns| ensures columns[c].name != name {
        EmptyColumnIsStorable(columns[c], rows, name);
      }
      var k :| 0 <= k < |constColumns| && constColumns[k].name == name;
      assert ConstHolds(constColumns[k], rows);
      assert constColumns[k].value == GetFieldValueByName(rows[0], name);
    }
  }

  lemma {:induction false} EmptyColumnIsStorable(c: Column, rows: seq<Fields>, name: string)
    requires ColumnHolds(c, rows) && EmptyIn(rows, name)
    ensures c.name == name ==> ConstStorable(c.values)
  {
  }

  /** Adding up columns and adding up rows give the same size, up to the always-empty columns. */
  lemma {:induction false} BlockSizeIsRowsSize(columns: seq<Column>, constColumns: Fields, rows: seq<Fields>)
    requires Holds(columns, constColumns, rows)
    requires forall c :: c in columns ==> |c.values| == |rows|
    requires forall i :: 0 <= i < |rows| ==> DistinctNames(rows[i])
    ensures (EMPTY_ROW_LEN + ConstColumnsLen(constColumns)) * |rows| + AllValuesLen(columns, |rows|)
            == FieldsSize(rows) + EmptyColumnsLen(constColumns) * |rows|
  {
    forall i | 0 <= i < |rows|
      ensures EMPTY_ROW_LEN + ConstColumnsLen(constColumns) + ColumnsLen(columns, i) == RowLen(rows[i]) + EmptyColumnsLen(constColumns)
    {
      RowSizeFromColumns(columns, constColumns, rows, i);
    }
    AllSumsAgree(columns, rows, EMPTY_ROW_LEN + ConstColumnsLen(constColumns), EmptyColumnsLen(constColumns));
  }

  lemma {:induction false} AllSumsAgree(columns: seq<Column>, rows: seq<Fields>, perRow: nat, extra: nat)
    requires forall c :: c in columns ==> |c.values| == |rows|
    requires forall i :: 0 <= i < |rows| ==> perRow + ColumnsLen(columns, i) == RowLen(rows[i]) + extra
    ensures perRow * |rows| + AllValuesLen(columns, |rows|) == FieldsSize(rows) + extra * |rows|
  {
    SumsAgree(columns, rows, perRow, extra, |rows|);
    assert rows[..|rows|] == rows;
  }

  // ---------- The block ----------

  /** All rows have the same distinct names in the same order. */
  ghost predicate SameNames(rows: seq<Fields>) {
    |rows| < 2 ||
    (DistinctNames(rows[0]) && forall i :: 0 <= i < |rows| ==> SameNamesAs(rows[0], rows[i]))
  }

  ghost predicate SameNamesAs(a: Fields, b: Fields) {
    |a| == |b| && forall k :: 0 <= k < |a| ==> b[k].name == a[k].name
  }

  /** How many leading rows fit into the limit on the number of columns. */
  ghost function Fitting(rows: seq<Fields>, seen: set<string>): (n: nat)
    ensures n <= |rows|
  {
    if rows == [] || |seen| + |rows[0]| > 2000 then 0
    else 1 + Fitting(rows[1..], seen + Names(rows[0]))
  }

  ghost function KeptRows(rows: seq<Fields>): (n: nat)
    ensures n <= |rows|
  {
    if SameNames(rows) then |rows| else Fitting(rows, {})
  }

  /** Nothing is dropped when all field names plus the widest row stay within the limit. */
  lemma {:induction false} AllRowsFit(rows: seq<Fields>, seen: set<string>, widest: nat)
    requires forall i :: 0 <= i < |rows| ==> |rows[i]| <= widest
    requires |seen + AllNames(rows)| + widest <= MAX_COLUMNS_PER_BLOCK
    ensures Fitting(rows, seen) == |rows|
  {
    if rows != [] {
      assert seen + AllNames(rows) == (seen + Names(rows[0])) + AllNames(rows[1..]);
      SubsetSize(seen, seen + AllNames(rows));
      AllRowsFit(rows[1..], seen + Names(rows[0]), widest);
    }
  }

  lemma {:induction false} SubsetSize<T>(a: set<T>, b: set<T>)
    requires a <= b
    ensures |a| <= |b|
  {
    assert b == a + (b - a);
  }

  method AreSameFieldsInRows(rows: seq<Fields>) returns (same: bool)
    ensures same == SameNames(rows)
  {
    if |rows| < 2 {
      return true;
    }
    var fields := rows[0];
    var m: set<string> := {};
    for i := 0 to |fields|
      invariant m == set k | 0 <= k < i :: fields[k].name
      invariant DistinctNames(fields[..i])
    {
      if fields[i].name in m {
        var k :| 0 <= k < i && fields[k].name == fields[i].name;
        return false;
      }
      m := m + {fields[i].name};
    }
    assert fields[..|fields|] == fields;
    for i := 1 to |rows|
      invariant forall k :: 0 <= k < i ==> SameNamesAs(fields, rows[k])
    {
      if |fields| != |rows[i]| {
        return false;
      }
      for j := 0 to |fields|
        invariant forall k :: 0 <= k < j ==> rows[i][k].name == fields[k].name
      {
        if rows[i][j].name != fields[j].name {
          return false;
        }
      }
    }
    return true;
  }

  /** The values of one column of rows with the same names. */
  function ValuesAt(rows: seq<Fields>, k: nat): seq<string>
    requires forall i :: 0 <= i < |rows| ==> k < |rows[i]|
  {
    seq(|rows|, i requires 0 <= i < |rows| => rows[i][k].value)
  }

  method CanStoreInConstColumn(values: seq<string>) returns (can: bool)
    ensures can == ConstStorable(values)
  {
    if |values| == 0 {
      return true;
    }
    var value := values[0];
    if |value| > MAX_CONST_COLUMN_VALUE_SIZE {
      return false;
    }
    for i := 1 to |values|
      invariant forall k :: 0 <= k < i ==> values[k] == value
    {
      if value != values[i] {
        return false;
      }
    }
    return true;
  }

  /** Const columns are short; the other columns could not have been const. */
  ghost predicate SplitByConst(columns: seq<Column>, constColumns: Fields) {
    && (forall c :: 0 <= c < |columns| ==> !ConstStorable(columns[c].values))
    && forall c :: 0 <= c < |constColumns| ==> |constColumns[c].value| <= MAX_CONST_COLUMN_VALUE_SIZE
  }

  /** Fast path: after the first k fields of rows with the same names. */
  ghost predicate HoldsFirst(columns: seq<Column>, constColumns: Fields, rows: seq<Fields>, k: nat)
    requires rows != [] && k <= |rows[0]|
  {
    && DistinctColumns(columns, constColumns)
    && SplitByConst(columns, constColumns)
    && |columns| + |constColumns| == k
    && (forall c :: 0 <= c < |columns| ==> ColumnHolds(columns[c], rows))
    && (forall c :: 0 <= c < |constColumns| ==> ConstHolds(constColumns[c], rows))
    && CoversExactly(columns, constColumns, Names(rows[0][..k]))
  }

  ghost predicate Uniform(rows: seq<Fields>) {
    && rows != []
    && (forall i :: 0 <= i < |rows| ==> |rows[i]| == |rows[0]|)
    && (forall i :: 0 <= i < |rows| ==> DistinctNames(rows[i]) && SameNamesAs(rows[0], rows[i]))
  }

  /** Rows with the same names are uniform, unless there is only one with repeated names. */
  lemma {:induction false} SameNamesAreUniform(rows: seq<Fields>)
    requires rows != [] && SameNames(rows)
    ensures Uniform(rows) <==> !IsRepetitive(rows)
  {
    forall i | 0 <= i < |rows| && DistinctNames(rows[0]) && SameNamesAs(rows[0], rows[i]) ensures DistinctNames(rows[i]) {
    }
  }

  lemma {:induction false} FastColumnHolds(rows: seq<Fields>, k: nat)
    requires Uniform(rows) && k < |rows[0]|
    ensures ColumnHolds(Column(rows[0][k].name, ValuesAt(rows, k)), rows)
    ensures ConstStorable(ValuesAt(rows, k)) ==> ConstHolds(rows[0][k], rows)
  {
    forall i | 0 <= i < |rows| ensures ValuesAt(rows, k)[i] == GetFieldValueByName(rows[i], rows[0][k].name) {
      ValueOfField(rows[i], k);
    }
  }

  method InitFast(rows: seq<Fields>) returns (columns: seq<Column>, constColumns: Fields)
    requires rows != [] && SameNames(rows)
    ensures Uniform(rows) ==> Holds(columns, constColumns, rows) && SplitByConst(columns, constColumns)
    ensures |rows| == 1 ==> HoldsFields(columns, constColumns, rows[0])
    ensures |columns| + |constColumns| == |rows[0]|
  {
    columns, constColumns := [], [];
    for k := 0 to |rows[0]|
      invariant HoldsFirstFields(columns, constColumns, rows, k)
    {
      columns, constColumns := AddFastColumn(rows, k, columns, constColumns);
    }
    AllFieldsHeld(columns, constColumns, rows);
  }

  lemma {:induction false} AllFieldsHeld(columns: seq<Column>, constColumns: Fields, rows: seq<Fields>)
    requires rows != [] && SameNames(rows) && HoldsFirstFields(columns, constColumns, rows, |rows[0]|)
    ensures Uniform(rows) ==> Holds(columns, constColumns, rows) && SplitByConst(columns, constColumns)
    ensures |rows| == 1 ==> HoldsFields(columns, constColumns, rows[0])
  {
    assert rows[0][..|rows[0]|] == rows[0];
    if Uniform(rows) {
      UniformNames(rows);
    }
  }

  ghost predicate HoldsFirstFields(columns: seq<Column>, constColumns: Fields, rows: seq<Fields>, k: nat)
    requires rows != [] && SameNames(rows) && k <= |rows[0]|
  {
    && |columns| + |constColumns| == k
    && (Uniform(rows) ==> HoldsFirst(columns, constColumns, rows, k))
    && (|rows| == 1 ==> HoldsFields(columns, constColumns, rows[0][..k]))
  }

  method AddFastColumn(rows: seq<Fields>, k: nat, columns0: seq<Column>, constColumns0: Fields) returns (columns: seq<Column>, constColumns: Fields)
    requires rows != [] && SameNames(rows) && k < |rows[0]| && HoldsFirstFields(columns0, constColumns0, rows, k)
    ensures HoldsFirstFields(columns, constColumns, rows, k + 1)
  {
    columns, constColumns := columns0, constColumns0;
    var values := ValuesAt(rows, k);
    var isConst := CanStoreInConstColumn(values);
    if Uniform(rows) {
      FastColumnHolds(rows, k);
      FastStep(columns, constColumns, rows, k);
    }
    if |rows| == 1 {
      OneMoreField(columns, constColumns, rows[0], k);
      assert values == [rows[0][k].value];
    }
    if isConst {
      constColumns := constColumns + [rows[0][k]];
    } else {
      columns := columns + [Column(rows[0][k].name, values)];
    }
  }

  /** A row with one name in several fields. */
  ghost predicate IsRepetitive(rows: seq<Fields>) {
    |rows| == 1 && !DistinctNames(rows[0])
  }

  /** Every field of the row is a column of its own. */
  ghost predicate HoldsFields(columns: seq<Column>, constColumns: Fields, row: Fields) {
    && |columns| + |constColumns| == |row|
    && (forall k :: 0 <= k < |row| ==> row[k] in constColumns || Column(row[k].name, [row[k].value]) in columns)
    && (forall k :: 0 <= k < |constColumns| ==> constColumns[k] in row)
    && forall k :: 0 <= k < |columns| ==> |columns[k].values| == 1 && Field(columns[k].name, columns[k].values[0]) in row
  }

  lemma {:induction false} OneMoreField(columns: seq<Column>, constColumns: Fields, row: Fields, k: nat)
    requires k < |row| && HoldsFields(columns, constColumns, row[..k])
    ensures HoldsFields(columns, constColumns + [row[k]], row[..k + 1])
    ensures HoldsFields(columns + [Column(row[k].name, [row[k].value])], constColumns, row[..k + 1])
  {
    assert row[..k + 1] == row[..k] + [row[k]];
  }

  lemma {:induction false} NamesOfDistinct(fields: Fields)
    ensures DistinctNames(fields) <==> |Names(fields)| == |fields|
  {
    if fields != [] {
      var n := |fields| - 1;
      var front := fields[..n];
      NamesOfDistinct(front);
      NamesBound(front);
      assert fields == front + [fields[n]];
      if fields[n].name in Names(front) {
        var k := NameIsSomewhere(front, fields[n].name);
        assert fields[k].name == fields[n].name;
        assert Names(fields) == Names(front);
      } else {
        forall k | 0 <= k < n ensures fields[k].name != fields[n].name {
          NameIsIn(front, k);
        }
      }
    }
  }

  ghost function NamesAsFields(columns: seq<Column>): Fields {
    if columns == [] then [] else [Field(columns[0].name, "")] + NamesAsFields(columns[1..])
  }

  lemma {:induction false} NamesAsFieldsAt(columns: seq<Column>)
    ensures |NamesAsFields(columns)| == |columns|
    ensures forall k :: 0 <= k < |columns| ==> NamesAsFields(columns)[k].name == columns[k].name
  {
    if columns != [] {
      NamesAsFieldsAt(columns[1..]);
    }
  }

  /** Columns for repeated names cannot be told apart. */
  lemma {:induction false} RepeatedColumns(columns: seq<Column>, constColumns: Fields, row: Fields)
    requires HoldsFields(columns, constColumns, row) && !DistinctNames(row)
    ensures !DistinctColumns(columns, constColumns)
  {
    var all := NamesAsFields(columns) + constColumns;
    NamesAsFieldsAt(columns);
    NamesOfDistinct(all);
    NamesOfDistinct(row);
    NamesBound(row);
    forall name | name in Names(all) ensures name in Names(row) {
      var k := NameIsSomewhere(all, name);
      var f := if k < |columns| then Field(columns[k].name, columns[k].values[0]) else all[k];
      var i :| 0 <= i < |row| && row[i] == f;
      NameIsIn(row, i);
    }
    SubsetSize(Names(all), Names(row));
  }

  lemma {:induction false} FieldsReordered(cs: seq<Column>, ccs: Fields, cs': seq<Column>, ccs': Fields, row: Fields)
    requires HoldsFields(cs, ccs, row) && multiset(cs') == multiset(cs) && multiset(ccs') == multiset(ccs)
    ensures HoldsFields(cs', ccs', row)
  {
    assert |cs'| == |multiset(cs')| == |cs| && |ccs'| == |multiset(ccs')| == |ccs|;
    assert forall c :: c in cs' <==> c in multiset(cs');
    assert forall c :: c in cs <==> c in multiset(cs);
    assert forall c :: c in ccs' <==> c in multiset(ccs');
    assert forall c :: c in ccs <==> c in multiset(ccs);
    forall k | 0 <= k < |cs'| ensures |cs'[k].values| == 1 && Field(cs'[k].name, cs'[k].values[0]) in row {
      assert cs'[k] in cs;
    }
    forall k | 0 <= k < |ccs'| ensures ccs'[k] in row {
      assert ccs'[k] in ccs;
    }
  }

  lemma {:induction false} CoveredGrows(columns: seq<Column>, constColumns: Fields, c: Column, cc: Field, name: string)
    ensures Covered(columns + [c], constColumns, name) <==> Covered(columns, constColumns, name) || name == c.name
    ensures Covered(columns, constColumns + [cc], name) <==> Covered(columns, constColumns, name) || name == cc.name
  {
    assert forall i :: 0 <= i < |columns| ==> (columns + [c])[i] == columns[i];
    assert forall i :: 0 <= i < |constColumns| ==> (constColumns + [cc])[i] == constColumns[i];
    assert (columns + [c])[|columns|] == c && (constColumns + [cc])[|constColumns|] == cc;
  }

  lemma {:induction false} CoversGrows(columns: seq<Column>, constColumns: Fields, c: Column, cc: Field, names: set<string>)
    requires CoversExactly(columns, constColumns, names) && c.name == cc.name
    ensures CoversExactly(columns + [c], constColumns, names + {c.name})
    ensures CoversExactly(columns, constColumns + [cc], names + {c.name})
    ensures c.name !in names ==>
              forall i :: 0 <= i < |columns| ==> columns[i].name != c.name
    ensures c.name !in names ==>
              forall i :: 0 <= i < |constColumns| ==> constColumns[i].name != c.name
  {
    forall name
      ensures Covered(columns + [c], constColumns, name) <==> name in names + {c.name}
      ensures Covered(columns, constColumns + [cc], name) <==> name in names + {c.name}
    {
      CoveredGrows(columns, constColumns, c, cc, name);
    }
    assert Covered(columns, constColumns, c.name) <==> c.name in names;
  }

  lemma {:induction false} NewName(fields: Fields, k: nat)
    requires DistinctNames(fields) && k < |fields|
    ensures fields[k].name !in Names(fields[..k])
    ensures Names(fields[..k + 1]) == Names(fields[..k]) + {fields[k].name}
  {
    assert fields[..k + 1][..k] == fields[..k];
    if fields[k].name in Names(fields[..k]) {
      var j := NameIsSomewhere(fields[..k], fields[k].name);
    }
  }

  lemma {:induction false} FastStep(columns: seq<Column>, constColumns: Fields, rows: seq<Fields>, k: nat)
    requires Uniform(rows) && k < |rows[0]| && HoldsFirst(columns, constColumns, rows, k)
    ensures ConstStorable(ValuesAt(rows, k)) ==> HoldsFirst(columns, constColumns + [rows[0][k]], rows, k + 1)
    ensures !ConstStorable(ValuesAt(rows, k)) ==>
              HoldsFirst(columns + [Column(rows[0][k].name, ValuesAt(rows, k))], constColumns, rows, k + 1)
  {
    if ConstStorable(ValuesAt(rows, k)) {
      FastConst(columns, constColumns, rows, k);
    } else {
      FastColumn(columns, constColumns, rows, k);
    }
  }

  lemma {:induction false} FastConst(columns: seq<Column>, constColumns: Fields, rows: seq<Fields>, k: nat)
    requires Uniform(rows) && k < |rows[0]| && HoldsFirst(columns, constColumns, rows, k) && ConstStorable(ValuesAt(rows, k))
    ensures HoldsFirst(columns, constColumns + [rows[0][k]], rows, k + 1)
  {
    FastColumnHolds(rows, k);
    NewName(rows[0], k);
    CoversGrows(columns, constColumns, Column(rows[0][k].name, ValuesAt(rows, k)), rows[0][k], Names(rows[0][..k]));
  }

  lemma {:induction false} FastColumn(columns: seq<Column>, constColumns: Fields, rows: seq<Fields>, k: nat)
    requires Uniform(rows) && k < |rows[0]| && HoldsFirst(columns, constColumns, rows, k) && !ConstStorable(ValuesAt(rows, k))
    ensures HoldsFirst(columns + [Column(rows[0][k].name, ValuesAt(rows, k))], constColumns, rows, k + 1)
  {
    FastColumnHolds(rows, k);
    NewName(rows[0], k);
    CoversGrows(columns, constColumns, Column(rows[0][k].name, ValuesAt(rows, k)), rows[0][k], Names(rows[0][..k]));
  }

  lemma {:induction false} UniformNames(rows: seq<Fields>)
    requires Uniform(rows)
    ensures AllNames(rows) == Names(rows[0])
  {
    forall name | name in AllNames(rows) ensures name in Names(rows[0]) {
      var i, k := RowOfName(rows, name);
      NameIsIn(rows[0], k);
    }
  }

  // ---------- The slow path ----------

  /** The seen names are numbered from zero, in the order of their first appearance. */
  ghost predicate Numbered(columnIdxs: map<string, nat>, names: seq<string>, seen: set<string>) {
    && columnIdxs.Keys == seen && |names| == |seen|
    && (forall name :: name in seen ==> columnIdxs[name] < |names| && names[columnIdxs[name]] == name)
    && forall k :: 0 <= k < |names| ==> names[k] in seen && columnIdxs[names[k]] == k
  }

  method NumberName(columnIdxs0: map<string, nat>, name: string, ghost names0: seq<string>, ghost seen: set<string>)
    returns (columnIdxs: map<string, nat>, ghost names: seq<string>)
    requires Numbered(columnIdxs0, names0, seen)
    ensures Numbered(columnIdxs, names, seen + {name})
  {
    columnIdxs, names := columnIdxs0, names0;
    if name !in columnIdxs {
      assert |columnIdxs.Keys| == |columnIdxs|;
      names := names + [name];
      columnIdxs := columnIdxs[name := |columnIdxs|];
    } else {
      assert seen + {name} == seen;
    }
  }

  lemma {:induction false} NamesOfOneMore(seen: set<string>, fields: Fields, j: nat)
    requires j < |fields|
    ensures seen + Names(fields[..j]) + {fields[j].name} == seen + Names(fields[..j + 1])
  {
    assert fields[..j + 1][..j] == fields[..j];
  }

  /** Adds the names of one row to the numbering. */
  method NumberNames(columnIdxs0: map<string, nat>, fields: Fields, ghost names0: seq<string>, ghost seen: set<string>)
    returns (columnIdxs: map<string, nat>, ghost names: seq<string>)
    requires Numbered(columnIdxs0, names0, seen)
    ensures Numbered(columnIdxs, names, seen + Names(fields))
  {
    columnIdxs, names := columnIdxs0, names0;
    assert seen + Names(fields[..0]) == seen;
    for j := 0 to |fields|
      invariant Numbered(columnIdxs, names, seen + Names(fields[..j]))
    {
      NamesOfOneMore(seen, fields, j);
      columnIdxs, names := NumberName(columnIdxs, fields[j].name, names, seen + Names(fields[..j]));
    }
    assert fields[..|fields|] == fields;
  }

  lemma {:induction false} NamesBound(fields: Fields)
    ensures |Names(fields)| <= |fields|
  {
    if fields != [] {
      NamesBound(fields[..|fields| - 1]);
    }
  }

  /** Numbers the field names of as many leading rows as fit into the limit. */
  method NumberColumns(rows: seq<Fields>)
    returns (columnIdxs: map<string, nat>, rowsProcessed: nat, ghost names: seq<string>, ghost seen: set<string>)
    ensures rowsProcessed == Fitting(rows, {})
    ensures Numbered(columnIdxs, names, seen) && |seen| <= MAX_COLUMNS_PER_BLOCK
    ensures seen == AllNames(rows[..rowsProcessed])
  {
    columnIdxs, names, seen := map[], [], {};
    rowsProcessed := 0;
    assert rows[0..] == rows;
    while rowsProcessed < |rows|
      invariant rowsProcessed <= |rows| && FitSoFar(rows, rowsProcessed, seen)
      invariant Numbered(columnIdxs, names, seen)
    {
      var fields := rows[rowsProcessed];
      assert |columnIdxs.Keys| == |columnIdxs|;
      FitsOrNot(rows, rowsProcessed, seen);
      if |columnIdxs| + |fields| > MAX_COLUMNS_PER_BLOCK {
        return;
      }
      columnIdxs, names := NumberNames(columnIdxs, fields, names, seen);
      seen := seen + Names(fields);
      rowsProcessed := rowsProcessed + 1;
    }
  }

  /** The first n rows fit; seen are their names. */
  ghost predicate FitSoFar(rows: seq<Fields>, n: nat, seen: set<string>)
    requires n <= |rows|
  {
    n + Fitting(rows[n..], seen) == Fitting(rows, {}) && |seen| <= MAX_COLUMNS_PER_BLOCK && seen == AllNames(rows[..n])
  }

  lemma {:induction false} FitsOrNot(rows: seq<Fields>, n: nat, seen: set<string>)
    requires n < |rows| && FitSoFar(rows, n, seen)
    ensures if |seen| + |rows[n]| > MAX_COLUMNS_PER_BLOCK then n == Fitting(rows, {})
            else FitSoFar(rows, n + 1, seen + Names(rows[n]))
  {
    assert rows[n..][1..] == rows[n + 1..];
    NamesBound(rows[n]);
    assert rows[..n + 1] == rows[..n] + [rows[n]];
    AllNamesAppend(rows[..n], rows[n]);
    assert |seen + Names(rows[n])| <= |seen| + |Names(rows[n])|;
  }

  /** One empty column per numbered name. */
  method EmptyColumns(columnIdxs: map<string, nat>, rowsLen: nat, ghost names: seq<string>, ghost seen: set<string>)
    returns (cs: seq<Column>)
    requires Numbered(columnIdxs, names, seen)
    ensures |cs| == |names|
    ensures forall c :: 0 <= c < |cs| ==> cs[c] == Column(names[c], seq(rowsLen, _ => ""))
  {
    var blank := seq(rowsLen, _ => "");
    assert |columnIdxs.Keys| == |columnIdxs|;
    cs := seq(|columnIdxs|, _ => Column("", blank));
    var left := columnIdxs.Keys;
    while left != {}
      invariant |cs| == |names| && left <= columnIdxs.Keys
      invariant forall c :: 0 <= c < |cs| && names[c] !in left ==> cs[c] == Column(names[c], blank)
    {
      var name :| name in left;
      cs := cs[columnIdxs[name] := Column(name, blank)];
      left := left - {name};
    }
  }

  /** The columns after the first k fields of row i have been written. */
  ghost predicate RowFilled(cs: seq<Column>, cs0: seq<Column>, fields: Fields, i: nat)
    requires forall c :: 0 <= c < |cs0| ==> i < |cs0[c].values|
  {
    && |cs| == |cs0|
    && forall c :: 0 <= c < |cs0| ==>
                     cs[c] == Column(cs0[c].name, cs0[c].values[i := GetFieldValueByName(Latest(fields), cs0[c].name)])
  }

  lemma {:induction false} LookupLonger(fields: Fields, k: nat, name: string)
    requires k < |fields|
    ensures GetFieldValueByName(Latest(fields[..k + 1]), name) ==
            if name == fields[k].name then fields[k].value else GetFieldValueByName(Latest(fields[..k]), name)
  {
    LatestValue(fields[..k + 1], name);
    assert fields[..k + 1][..k] == fields[..k];
  }

  lemma {:induction false} FieldWritten(cs: seq<Column>, cs0: seq<Column>, fields: Fields, i: nat, k: nat, idx: nat)
    requires forall c :: 0 <= c < |cs0| ==> i < |cs0[c].values|
    requires forall c, d :: 0 <= c < d < |cs0| ==> cs0[c].name != cs0[d].name
    requires k < |fields| && RowFilled(cs, cs0, fields[..k], i)
    requires idx < |cs0| && cs0[idx].name == fields[k].name
    ensures RowFilled(cs[idx := Column(cs[idx].name, cs[idx].values[i := fields[k].value])], cs0, fields[..k + 1], i)
  {
    forall c | 0 <= c < |cs0|
      ensures GetFieldValueByName(Latest(fields[..k + 1]), cs0[c].name) ==
              if c == idx then fields[k].value else GetFieldValueByName(Latest(fields[..k]), cs0[c].name)
    {
      LookupLonger(fields, k, cs0[c].name);
    }
  }

  /** Writes the values of one row into its columns. */
  method FillRow(cs0: seq<Column>, columnIdxs: map<string, nat>, fields: Fields, i: nat,
                 ghost names: seq<string>, ghost seen: set<string>)
    returns (cs: seq<Column>)
    requires Numbered(columnIdxs, names, seen) && |cs0| == |names| && Names(fields) <= seen
    requires forall c :: 0 <= c < |cs0| ==> cs0[c].name == names[c] && i < |cs0[c].values| && cs0[c].values[i] == ""
    ensures RowFilled(cs, cs0, fields, i)
  {
    cs := cs0;
    for k := 0 to |fields|
      invariant RowFilled(cs, cs0, fields[..k], i)
    {
      NameIsIn(fields, k);
      var idx := columnIdxs[fields[k].name];
      FieldWritten(cs, cs0, fields, i, k, idx);
      cs := cs[idx := Column(cs[idx].name, cs[idx].values[i := fields[k].value])];
    }
    assert fields[..|fields|] == fields;
  }

  /** The columns after the first i rows have been written. */
  ghost predicate RowsFilled(cs: seq<Column>, names: seq<string>, rows: seq<Fields>, i: nat) {
    && |cs| == |names|
    && (forall c :: 0 <= c < |cs| ==> cs[c].name == names[c] && |cs[c].values| == |rows|)
    && forall c :: 0 <= c < |cs| ==> ColumnFilled(cs[c], rows, i)
  }

  ghost predicate ColumnFilled(c: Column, rows: seq<Fields>, i: nat) {
    && |c.values| == |rows|
    && forall k :: 0 <= k < |rows| ==> c.values[k] == if k < i then GetFieldValueByName(Latest(rows[k]), c.name) else ""
  }

  lemma {:induction false} RowsFilledGrows(cs': seq<Column>, cs: seq<Column>, names: seq<string>, rows: seq<Fields>, i: nat)
    requires i < |rows| && RowsFilled(cs, names, rows, i) && RowFilled(cs', cs, rows[i], i)
    ensures RowsFilled(cs', names, rows, i + 1)
  {
    forall c | 0 <= c < |cs'| ensures ColumnFilled(cs'[c], rows, i + 1) {
      assert ColumnFilled(cs[c], rows, i);
    }
  }

  /** Puts every value into its column. */
  method FillColumns(rows: seq<Fields>, columnIdxs: map<string, nat>, ghost names: seq<string>, ghost seen: set<string>)
    returns (cs: seq<Column>)
    requires Numbered(columnIdxs, names, seen)
    requires seen == AllNames(rows)
    ensures |cs| == |seen| && Holds(cs, [], AllLatest(rows))
  {
    cs := EmptyColumns(columnIdxs, |rows|, names, seen);
    for i := 0 to |rows|
      invariant RowsFilled(cs, names, rows, i)
    {
      ghost var before := cs;
      assert forall c :: 0 <= c < |cs| ==> ColumnFilled(cs[c], rows, i);
      NamesOfRow(rows, i);
      cs := FillRow(cs, columnIdxs, rows[i], i, names, seen);
      RowsFilledGrows(cs, before, names, rows, i);
    }
    AllFilled(cs, columnIdxs, names, seen, rows);
  }

  lemma {:induction false} AllFilled(cs: seq<Column>, columnIdxs: map<string, nat>, names: seq<string>, seen: set<string>, rows: seq<Fields>)
    requires Numbered(columnIdxs, names, seen) && RowsFilled(cs, names, rows, |rows|)
    requires seen == AllNames(rows)
    ensures Holds(cs, [], AllLatest(rows))
  {
    forall c | 0 <= c < |cs| ensures ColumnHolds(cs[c], AllLatest(rows)) {
      assert ColumnFilled(cs[c], rows, |rows|);
    }
    AllNamesOfLatest(rows);
    NumberedCovers(cs, columnIdxs, names, seen);
  }

  lemma {:induction false} NumberedCovers(cs: seq<Column>, columnIdxs: map<string, nat>, names: seq<string>, seen: set<string>)
    requires Numbered(columnIdxs, names, seen) && |cs| == |names| && forall c :: 0 <= c < |cs| ==> cs[c].name == names[c]
    ensures CoversExactly(cs, [], seen) && DistinctColumnNames(cs)
  {
    forall name ensures HasColumn(cs, name) <==> name in seen {
      if name in seen {
        assert cs[columnIdxs[name]].name == name;
      }
    }
  }

  /** Moves the const columns out; the last column takes the place of a moved one. */
  method DetectConstColumns(cs0: seq<Column>, ghost rows: seq<Fields>) returns (cs: seq<Column>, constColumns: Fields)
    requires Holds(cs0, [], rows) && rows != []
    ensures Holds(cs, constColumns, rows) && SplitByConst(cs, constColumns)
    ensures |cs| + |constColumns| == |cs0|
  {
    cs, constColumns := cs0, [];
    var i := |cs|;
    while i > 0
      invariant 0 <= i <= |cs| && |cs| + |constColumns| == |cs0|
      invariant Holds(cs, constColumns, rows) && SplitAfter(cs, constColumns, i)
    {
      i := i - 1;
      var isConst := CanStoreInConstColumn(cs[i].values);
      if isConst {
        ColumnBecomesConst(cs, constColumns, rows, i);
        SplitAfterMove(cs, constColumns, i);
        constColumns := constColumns + [Field(cs[i].name, cs[i].values[0])];
        cs := SwapRemoved(cs, i);
      }
    }
  }

  /** The tail of columns from i on has been looked at. */
  ghost predicate SplitAfter(cs: seq<Column>, constColumns: Fields, i: nat) {
    && (forall c :: i <= c < |cs| ==> !ConstStorable(cs[c].values))
    && forall c :: 0 <= c < |constColumns| ==> |constColumns[c].value| <= MAX_CONST_COLUMN_VALUE_SIZE
  }

  /** Column i is swapped with the last one, which is then cut off. */
  function SwapRemoved(cs: seq<Column>, i: nat): (cs': seq<Column>)
    requires i < |cs|
    ensures |cs'| == |cs| - 1
    ensures forall c :: 0 <= c < |cs'| ==> cs'[c] == if c == i then cs[|cs| - 1] else cs[c]
  {
    (if i < |cs| - 1 then cs[i := cs[|cs| - 1]][|cs| - 1 := cs[i]] else cs)[..|cs| - 1]
  }

  lemma {:induction false} SplitAfterMove(cs: seq<Column>, constColumns: Fields, i: nat)
    requires i < |cs| && SplitAfter(cs, constColumns, i + 1) && ConstStorable(cs[i].values) && cs[i].values != []
    ensures SplitAfter(SwapRemoved(cs, i), constColumns + [Field(cs[i].name, cs[i].values[0])], i)
  {
  }

  lemma {:induction false} ColumnBecomesConst(cs: seq<Column>, constColumns: Fields, rows: seq<Fields>, i: nat)
    requires Holds(cs, constColumns, rows) && rows != [] && i < |cs| && ConstStorable(cs[i].values)
    ensures cs[i].values != []
    ensures Holds(SwapRemoved(cs, i), constColumns + [Field(cs[i].name, cs[i].values[0])], rows)
  {
    assert ColumnHolds(cs[i], rows);
    var cs' := SwapRemoved(cs, i);
    var cc := Field(cs[i].name, cs[i].values[0]);
    assert forall c :: 0 <= c < |cs'| ==> ColumnHolds(cs'[c], rows);
    forall name ensures Covered(cs', constColumns + [cc], name) <==> Covered(cs, constColumns, name) {
      CoveredGrows(cs', constColumns, cs[i], cc, name);
      if c :| 0 <= c < |cs| && cs[c].name == name && c != i {
        assert cs'[if c == |cs| - 1 then i else c].name == name;
      }
    }
  }

  // ---------- Sorting columns by name ----------

  /** Go's order of strings. */
  predicate StringLeq(a: string, b: string) {
    a == [] || (b != [] && (a[0] < b[0] || (a[0] == b[0] && StringLeq(a[1..], b[1..]))))
  }

  lemma {:induction false} StringLeqTotal(a: string, b: string)
    ensures StringLeq(a, b) || StringLeq(b, a)
  {
    if a != [] && b != [] {
      StringLeqTotal(a[1..], b[1..]);
    }
  }

  lemma {:induction false} StringLeqTransitive(a: string, b: string, c: string)
    requires StringLeq(a, b) && StringLeq(b, c)
    ensures StringLeq(a, c)
  {
    if a != [] {
      if a[0] == b[0] == c[0] {
        StringLeqTransitive(a[1..], b[1..], c[1..]);
      }
    }
  }

  predicate ColumnLeq(a: Column, b: Column) {
    StringLeq(a.name, b.name)
  }

  predicate FieldLeq(a: Field, b: Field) {
    StringLeq(a.name, b.name)
  }

  lemma {:induction false} NameOrders()
    ensures TotalPreorder(ColumnLeq) && TotalPreorder(FieldLeq)
  {
    forall a: string, b: string ensures StringLeq(a, b) || StringLeq(b, a) {
      StringLeqTotal(a, b);
    }
    forall a: string, b: string, c: string | StringLeq(a, b) && StringLeq(b, c) ensures StringLeq(a, c) {
      StringLeqTransitive(a, b, c);
    }
  }

  lemma {:induction false} CountInDistinct<T>(a: seq<T>, x: T)
    requires forall k, m :: 0 <= k < m < |a| ==> a[k] != a[m]
    ensures multiset(a)[x] <= 1
  {
    if a != [] {
      assert a == [a[0]] + a[1..];
      CountInDistinct(a[1..], x);
      assert a[0] !in a[1..];
    }
  }

  /** A list without equal elements keeps this when it is reordered. */
  lemma {:induction false} PermutationOfDistinct<T>(a: seq<T>, b: seq<T>, i: nat, j: nat)
    requires multiset(a) == multiset(b) && i < j < |b|
    requires forall k, m :: 0 <= k < m < |a| ==> a[k] != a[m]
    ensures b[i] in a && b[j] in a && b[i] != b[j]
  {
    assert b[i] in multiset(a) && b[j] in multiset(a);
    CountInDistinct(a, b[j]);
    assert b == b[..j] + [b[j]] + b[j + 1..];
    assert b[i] in b[..j];
  }

  lemma {:induction false} SameNamesAsFields(cs: seq<Column>, ccs: Fields, cs': seq<Column>, ccs': Fields, name: string)
    requires multiset(cs') == multiset(cs) && multiset(ccs') == multiset(ccs) && Covered(cs, ccs, name)
    ensures Covered(cs', ccs', name)
  {
    if c :| 0 <= c < |cs| && cs[c].name == name {
      assert cs[c] in multiset(cs');
    } else {
      var c :| 0 <= c < |ccs| && ccs[c].name == name;
      assert ccs[c] in multiset(ccs');
    }
  }

  /** Reordering columns changes nothing about what they hold. */
  lemma {:induction false} HoldsReordered(cs: seq<Column>, ccs: Fields, cs': seq<Column>, ccs': Fields, rows: seq<Fields>)
    requires Holds(cs, ccs, rows) && SplitByConst(cs, ccs)
    requires multiset(cs') == multiset(cs) && multiset(ccs') == multiset(ccs)
    ensures Holds(cs', ccs', rows) && SplitByConst(cs', ccs')
  {
    assert forall c :: c in multiset(cs') ==> c in cs;
    assert forall c :: c in multiset(ccs') ==> c in ccs;
    forall i, j | 0 <= i < j < |cs'| ensures cs'[i].name != cs'[j].name {
      PermutationOfDistinct(cs, cs', i, j);
    }
    forall i, j | 0 <= i < j < |ccs'| ensures ccs'[i].name != ccs'[j].name {
      PermutationOfDistinct(ccs, ccs', i, j);
    }
    assert forall c :: 0 <= c < |cs'| ==> cs'[c] in multiset(cs');
    assert forall c :: 0 <= c < |ccs'| ==> ccs'[c] in multiset(ccs');
    forall name ensures Covered(cs', ccs', name) <==> Covered(cs, ccs, name) {
      if Covered(cs, ccs, name) {
        SameNamesAsFields(cs, ccs, cs', ccs', name);
      }
      if Covered(cs', ccs', name) {
        SameNamesAsFields(cs', ccs', cs, ccs, name);
      }
    }
  }

  // ---------- The block ----------

  predicate TimestampsSorted(timestamps: seq<int>) {
    forall i :: 0 < i < |timestamps| ==> timestamps[i - 1] <= timestamps[i]
  }

  class Block {
    var timestamps: seq<int>
    var columns: seq<Column>
    var constColumns: Fields

    constructor ()
      ensures timestamps == [] && columns == [] && constColumns == []
    {
      timestamps, columns, constColumns := [], [], [];
    }

    /** The block holds these rows, column by column, sorted by name. */
    ghost predicate HoldsRows(rows: seq<Fields>)
      reads this
    {
      && |timestamps| == |rows|
      && Holds(columns, constColumns, rows)
      && SplitByConst(columns, constColumns)
      && SortedBy(columns, ColumnLeq) && SortedBy(constColumns, FieldLeq)
      && |columns| + |constColumns| <= MAX_COLUMNS_PER_BLOCK
    }

    /** Fails, where the storage panics, on unequal lengths, unsorted timestamps, or rows with
        the same names that are more than a block can have. Otherwise the block holds all rows
        up to the first one that goes over the limit on columns. */
    method MustInitFromRows(ts: seq<int>, rows: seq<Fields>) returns (ok: bool)
      modifies this
      ensures ok == (TimestampsSorted(ts) && |ts| == |rows|
                     && (rows != [] && SameNames(rows) ==> |rows[0]| <= MAX_COLUMNS_PER_BLOCK))
      ensures ok ==> timestamps == ts[..KeptRows(rows)]
      ensures ok && !IsRepetitive(rows) ==> HoldsRows(AllLatest(rows[..KeptRows(rows)]))
      ensures ok && IsRepetitive(rows) ==> HoldsFields(columns, constColumns, rows[0]) && forall any :: !HoldsRows(any)
    {
      timestamps, columns, constColumns := [], [], [];
      var sorted := AssertTimestampsSorted(ts);
      if !sorted || |ts| != |rows| {
        return false;
      }
      MustInitFromRowsInternal(ts, rows);
      ghost var cs, ccs := columns, constColumns;
      ok := SortColumnsByName(AllLatest(rows[..KeptRows(rows)]));
      if IsRepetitive(rows) && ok {
        FieldsReordered(cs, ccs, columns, constColumns, rows[0]);
        RepeatedColumns(columns, constColumns, rows[0]);
      }
    }

    method MustInitFromRowsInternal(ts: seq<int>, rows: seq<Fields>)
      requires |ts| == |rows| && timestamps == [] && columns == [] && constColumns == []
      modifies this
      ensures timestamps == ts[..KeptRows(rows)]
      ensures IsRepetitive(rows) ==> HoldsFields(columns, constColumns, rows[0])
      ensures !IsRepetitive(rows) ==>
                Holds(columns, constColumns, AllLatest(rows[..KeptRows(rows)])) && SplitByConst(columns, constColumns)
      ensures |columns| + |constColumns| <= MAX_COLUMNS_PER_BLOCK
              <==> (rows != [] && SameNames(rows) ==> |rows[0]| <= MAX_COLUMNS_PER_BLOCK)
    {
      if |rows| == 0 {
        return;
      }
      var same := AreSameFieldsInRows(rows);
      if same {
        assert rows[..|rows|] == rows && ts[..|ts|] == ts;
        SameNamesAreUniform(rows);
        LatestOfDistinct(rows);
        timestamps := ts;
        columns, constColumns := InitFast(rows);
        return;
      }
      var rowsProcessed;
      rowsProcessed, columns, constColumns := InitSlow(rows);
      timestamps := ts[..rowsProcessed];
    }

    /** Fails when there are too many columns. */
    method SortColumnsByName(ghost rows: seq<Fields>) returns (ok: bool)
      modifies this
      ensures ok == (|old(columns)| + |old(constColumns)| <= MAX_COLUMNS_PER_BLOCK) && timestamps == old(timestamps)
      ensures multiset(columns) == multiset(old(columns)) && multiset(constColumns) == multiset(old(constColumns))
      ensures ok && |timestamps| == |rows| && old(Holds(columns, constColumns, rows) && SplitByConst(columns, constColumns)) ==>
                HoldsRows(rows)
    {
      if |columns| + |constColumns| > MAX_COLUMNS_PER_BLOCK {
        return false;
      }
      NameOrders();
      var cs := Sort(columns, ColumnLeq);
      var ccs := Sort(constColumns, FieldLeq);
      if Holds(columns, constColumns, rows) && SplitByConst(columns, constColumns) {
        HoldsReordered(columns, constColumns, cs, ccs, rows);
      }
      assert |multiset(cs)| == |multiset(columns)| && |multiset(ccs)| == |multiset(constColumns)|;
      columns, constColumns := cs, ccs;
      return true;
    }

    /** The size of the rows as JSON, added up column by column. It is the sum over the rows,
        except that a const column that is always empty counts here but not there. */
    method UncompressedSizeBytes(ghost rows: seq<Fields>) returns (totalSize: nat)
      requires HoldsRows(rows)
      requires forall i :: 0 <= i < |rows| ==> DistinctNames(rows[i])
      ensures totalSize == FieldsSize(rows) + EmptyColumnsLen(constColumns) * |rows|
      ensures totalSize == FieldsSize(rows) <==> !HasEmptyName(rows)
    {
      var rowsCount := |timestamps|;
      SizeSplit(columns, constColumns, rows);
      if rowsCount == 0 {
        return 0;
      }
      var constSize := ConstColumnsSize(constColumns, rowsCount);
      var valuesSize := ColumnsSize(columns, rowsCount);
      totalSize := EMPTY_ROW_LEN * rowsCount + constSize + valuesSize;
    }

    /** Appends the rows of the block to dst. Each of them is the row it was built from for every query,
        and has the same estimated size. */
    method AppendRowsTo(dst: seq<Row>, ghost rows: seq<Fields>) returns (dst': seq<Row>)
      requires HoldsRows(rows)
      requires forall i :: 0 <= i < |rows| ==> DistinctNames(rows[i])
      ensures |dst'| == |dst| + |timestamps| && dst'[..|dst|] == dst
      ensures forall i :: 0 <= i < |rows| ==>
                var row := dst'[|dst| + i];
                row.timestamp == timestamps[i] && SameFields(row.fields, rows[i]) && RowLen(row.fields) == RowLen(rows[i])
    {
      dst' := dst;
      ghost var back: seq<Row> := [];
      for i := 0 to |timestamps|
        invariant dst' == dst + back && AreBack(back, timestamps, rows, i)
      {
        var row := ReadRow(i, rows);
        AppendAssoc(dst, back, row);
        dst', back := dst' + [row], back + [row];
      }
      assert forall i :: 0 <= i < |rows| ==> dst'[|dst| + i] == back[i] && RowIsBack(back[i], timestamps[i], rows[i]);
    }

    method ReadRow(i: nat, ghost rows: seq<Fields>) returns (row: Row)
      requires HoldsRows(rows) && i < |timestamps| && forall k :: 0 <= k < |rows| ==> DistinctNames(rows[k])
      ensures i < |rows| && RowIsBack(row, timestamps[i], rows[i])
    {
      var fields := RowAt(columns, constColumns, i);
      RowComesBack(columns, constColumns, rows, i);
      SameFieldsSameLen(fields, rows[i]);
      row := Row(timestamps[i], fields);
    }
  }

  lemma {:induction false} AppendAssoc<T>(a: seq<T>, b: seq<T>, x: T)
    ensures a + b + [x] == a + (b + [x])
  {
  }

  ghost predicate AreBack(back: seq<Row>, timestamps: seq<int>, rows: seq<Fields>, n: nat) {
    n <= |timestamps| == |rows| && |back| == n && forall k :: 0 <= k < n ==> RowIsBack(back[k], timestamps[k], rows[k])
  }

  ghost predicate RowIsBack(row: Row, timestamp: int, fields: Fields) {
    row.timestamp == timestamp && SameFields(row.fields, fields) && RowLen(row.fields) == RowLen(fields)
  }

  method AssertTimestampsSorted(timestamps: seq<int>) returns (ok: bool)
    ensures ok == TimestampsSorted(timestamps)
  {
    for i := 0 to |timestamps|
      invariant forall k :: 0 < k < i ==> timestamps[k - 1] <= timestamps[k]
    {
      if i > 0 && timestamps[i - 1] > timestamps[i] {
        return false;
      }
    }
    return true;
  }

  /** The general path: rows with different sets of names. */
  method InitSlow(rows: seq<Fields>) returns (rowsProcessed: nat, columns: seq<Column>, constColumns: Fields)
    ensures rowsProcessed == Fitting(rows, {})
    ensures Holds(columns, constColumns, AllLatest(rows[..rowsProcessed])) && SplitByConst(columns, constColumns)
    ensures |columns| + |constColumns| <= MAX_COLUMNS_PER_BLOCK
  {
    ghost var names, seen;
    var columnIdxs;
    columnIdxs, rowsProcessed, names, seen := NumberColumns(rows);
    var kept := rows[..rowsProcessed];
    if |kept| == 0 {
      return rowsProcessed, [], [];
    }
    var cs := FillColumns(kept, columnIdxs, names, seen);
    columns, constColumns := DetectConstColumns(cs, AllLatest(kept));
  }

  lemma {:induction false} SizeSplit(columns: seq<Column>, constColumns: Fields, rows: seq<Fields>)
    requires Holds(columns, constColumns, rows) && SplitByConst(columns, constColumns)
    requires forall i :: 0 <= i < |rows| ==> DistinctNames(rows[i])
    ensures forall c :: c in columns ==> |c.values| == |rows|
    ensures EMPTY_ROW_LEN * |rows| + ConstColumnsLen(constColumns) * |rows| + AllValuesLen(columns, |rows|)
            == FieldsSize(rows) + EmptyColumnsLen(constColumns) * |rows|
    ensures EmptyColumnsLen(constColumns) * |rows| == 0 <==> !HasEmptyName(rows)
  {
    forall c | c in columns ensures |c.values| == |rows| {
      var k :| 0 <= k < |columns| && columns[k] == c;
      assert ColumnHolds(columns[k], rows);
    }
    BlockSizeIsRowsSize(columns, constColumns, rows);
    Distributes(EMPTY_ROW_LEN, ConstColumnsLen(constColumns), |rows|);
    EmptySize(columns, constColumns, rows);
  }

  lemma {:induction false} EmptySize(columns: seq<Column>, constColumns: Fields, rows: seq<Fields>)
    requires Holds(columns, constColumns, rows) && SplitByConst(columns, constColumns)
    ensures EmptyColumnsLen(constColumns) * |rows| == 0 <==> !HasEmptyName(rows)
  {
    ConstColumnsLenSplit(constColumns);
    ZeroProduct(EmptyColumnsLen(constColumns), |rows|);
    if rows != [] {
      EmptyConstColumns(columns, constColumns, rows);
    }
  }

  lemma {:induction false} Distributes(a: nat, b: nat, n: nat)
    ensures (a + b) * n == a * n + b * n
  {
  }

  lemma {:induction false} ZeroProduct(a: nat, n: nat)
    ensures a * n == 0 <==> a == 0 || n == 0
  {
  }

  /** Every const column counts in every row. */
  method ConstColumnsSize(constColumns: Fields, rowsCount: nat) returns (size: nat)
    ensures size == ConstColumnsLen(constColumns) * rowsCount
  {
    size := 0;
    for i := 0 to |constColumns|
      invariant size + ConstColumnsLen(constColumns[i..]) * rowsCount == ConstColumnsLen(constColumns) * rowsCount
    {
      assert constColumns[i..][1..] == constColumns[i + 1..];
      var fieldLen := EstimatedJSONFieldLen(CanonicalColumnName(constColumns[i].name), constColumns[i].value);
      Distributes(fieldLen, ConstColumnsLen(constColumns[i + 1..]), rowsCount);
      size := size + fieldLen * rowsCount;
    }
  }

  method ColumnsSize(columns: seq<Column>, ghost rowsCount: nat) returns (size: nat)
    requires forall c :: c in columns ==> |c.values| == rowsCount
    ensures size == AllValuesLen(columns, rowsCount)
  {
    size := 0;
    for i := 0 to |columns|
      invariant size + AllValuesLen(columns[i..], rowsCount) == AllValuesLen(columns, rowsCount)
    {
      assert columns[i..][1..] == columns[i + 1..];
      var n := ValuesSize(columns[i]);
      size := size + n;
    }
  }

  /** The sizes of the non-empty values of a column. */
  method ValuesSize(c: Column) returns (size: nat)
    ensures size == ValuesLen(c, |c.values|)
  {
    size := 0;
    for i := 0 to |c.values|
      invariant size == ValuesLen(c, i)
    {
      if |c.values[i]| > 0 {
        size := size + EstimatedJSONFieldLen(CanonicalColumnName(c.name), c.values[i]);
      }
    }
  }

  /** The const columns, then the columns that are not empty in row i. */
  method RowAt(columns: seq<Column>, constColumns: Fields, i: nat) returns (fields: Fields)
    requires forall c :: c in columns ==> i < |c.values|
    ensures fields == constColumns + ColumnFields(columns, i)
  {
    fields := constColumns;
    for j := 0 to |columns|
      invariant fields + ColumnFields(columns[j..], i) == constColumns + ColumnFields(columns, i)
    {
      assert columns[j..][1..] == columns[j + 1..];
      if |columns[j].values[i]| > 0 {
        fields := fields + [Field(columns[j].name, columns[j].values[i])];
      }
    }
  }
}
