/** Merging index rows inside a block does not change what searches find. */
module IndexMerges {
  import TR = TagRows
  import SI = StreamIndex
  import TV = TagValues
  import BE = BigEndian

  /** The tenant and the tag in front of the stream ids. */
  datatype Tag = Tag(tenant: SI.TenantID, name: string, value: string)

  /** The rows as searches see them; `read` tells what the bytes in front of the stream ids mean. */
  ghost function Parsed(rows: seq<TR.Row>, read: TR.Row -> Tag): seq<SI.TagRow> {
    if rows == [] then []
    else Parsed(rows[..|rows| - 1], read) + ParsedRow(rows[|rows| - 1], read)
  }

  ghost function ParsedRow(row: TR.Row, read: TR.Row -> Tag): seq<SI.TagRow> {
    if TR.ValidTagRow(row) then
      var tag := read(TR.Prefix(row));
      [SI.TagRow(tag.tenant, tag.name, tag.value, TR.RowIDs(row))]
    else []
  }

  ghost function EntryOf(e: TR.Entry, read: TR.Row -> Tag): SI.Entry {
    var tag := read(e.0);
    SI.Entry(tag.tenant, tag.name, tag.value, e.1)
  }

  ghost function EntriesOf(entries: set<TR.Entry>, read: TR.Row -> Tag): set<SI.Entry> {
    set e | e in entries :: EntryOf(e, read)
  }

  lemma {:induction false} ParsedRowEntries(row: TR.Row, read: TR.Row -> Tag)
    ensures SI.Entries(ParsedRow(row, read)) == EntriesOf(TR.RowEntries(row), read)
  {
    if TR.ValidTagRow(row) {
      var parsed := ParsedRow(row, read)[0];
      assert [parsed][..0] == [] && SI.Entries([parsed]) == {} + SI.RowEntries(parsed);
      forall e: SI.Entry
        ensures e in SI.RowEntries(parsed) <==> e in EntriesOf(TR.RowEntries(row), read)
      {
        if e in SI.RowEntries(parsed) {
          assert EntryOf((TR.Prefix(row), e.id), read) == e && (TR.Prefix(row), e.id) in TR.RowEntries(row);
        }
      }
    }
  }

  /** Searches see exactly the entries of the rows. */
  lemma {:induction false} ParsedEntries(rows: seq<TR.Row>, read: TR.Row -> Tag)
    ensures SI.Entries(Parsed(rows, read)) == EntriesOf(TR.Entries(rows), read)
  {
    if rows != [] {
      var front, last := rows[..|rows| - 1], rows[|rows| - 1];
      ParsedEntries(front, read);
      ParsedRowEntries(last, read);
      SI.EntriesConcat(Parsed(front, read), ParsedRow(last, read));
    }
  }

  /** An index of the streams stays one when rows are merged. */
  lemma {:induction false} MergeKeepsStreams(rows: seq<TR.Row>, out: seq<TR.Row>, read: TR.Row -> Tag,
                                             tenantRows: seq<(SI.TenantID, SI.ID)>, streams: set<SI.Stream>)
    requires TR.SameIndex(rows, out)
    ensures SI.IsIndexOf(SI.Index(tenantRows, Parsed(rows, read)), streams) <==> SI.IsIndexOf(SI.Index(tenantRows, Parsed(out, read)), streams)
  {
    ParsedEntries(rows, read);
    ParsedEntries(out, read);
  }

  // ---------- The bytes of rows ----------

  /** A string is bytes; here each is a character. */
  ghost predicate HasBytes(s: string) {
    forall i :: 0 <= i < |s| ==> s[i] < 256 as char
  }

  function BytesOf(s: string): TR.Row
    requires HasBytes(s)
  {
    seq(|s|, i requires 0 <= i < |s| => s[i] as int)
  }

  function StringOf(b: TR.Row): string {
    seq(|b|, i requires 0 <= i < |b| => b[i] as char)
  }

  function MarshalPrefix(tenant: SI.TenantID, name: string, value: string): TR.Row
    requires HasBytes(name) && HasBytes(value)
  {
    [2] + BE.Marshal(tenant.accountID, 4) + BE.Marshal(tenant.projectID, 4) +
    TV.Escaped(BytesOf(name)) + [1] + TV.Escaped(BytesOf(value)) + [1]
  }

  ghost predicate CanMarshal(row: SI.TagRow) {
    && HasBytes(row.name) && HasBytes(row.value) && row.ids != []
    && row.tenant.accountID < 0x1_0000_0000 && row.tenant.projectID < 0x1_0000_0000
    && forall i :: 0 <= i < |row.ids| ==> 0 <= row.ids[i] < 0x1_0000_0000_0000_0000_0000_0000_0000_0000
  }

  ghost predicate CanMarshalAll(rows: seq<SI.TagRow>) {
    forall i :: 0 <= i < |rows| ==> CanMarshal(rows[i])
  }

  ghost function MarshalRow(row: SI.TagRow): TR.Row
    requires CanMarshal(row)
  {
    MarshalPrefix(row.tenant, row.name, row.value) + TR.MarshalIDs(row.ids)
  }

  ghost function MarshalRows(rows: seq<SI.TagRow>): seq<TR.Row>
    requires CanMarshalAll(rows)
  {
    if rows == [] then [] else MarshalRows(rows[..|rows| - 1]) + [MarshalRow(rows[|rows| - 1])]
  }

  const NO_TAG := Tag(SI.TenantID(0, 0), "", "")

  /** The tag in front of the stream ids. */
  function ReadTag(prefix: TR.Row): Tag {
    if |prefix| < 9 then NO_TAG
    else
      var tenant := SI.TenantID(BE.Unmarshal(prefix[1..5]), BE.Unmarshal(prefix[5..9]));
      match TV.ReadTagValue(prefix[9..])
      case Err => NO_TAG
      case Ok((name, tail)) =>
        match TV.ReadTagValue(tail)
        case Err => NO_TAG
        case Ok((value, _)) => Tag(tenant, StringOf(name), StringOf(value))
  }

  lemma {:induction false} TagIsRead(tenant: SI.TenantID, name: string, value: string)
    requires HasBytes(name) && HasBytes(value) && tenant.accountID < 0x1_0000_0000 && tenant.projectID < 0x1_0000_0000
    ensures ReadTag(MarshalPrefix(tenant, name, value)) == Tag(tenant, name, value)
  {
    var a, b := BE.Marshal(tenant.accountID, 4), BE.Marshal(tenant.projectID, 4);
    var last := TV.Escaped(BytesOf(value)) + [1];
    var tags := TV.Escaped(BytesOf(name)) + [1] + last;
    var prefix := MarshalPrefix(tenant, name, value);
    assert prefix == [2] + a + b + tags;
    assert prefix[1..5] == a && prefix[5..9] == b && prefix[9..] == tags;
    BE.Power256Of8();
    BE.RoundTrip(tenant.accountID, 4);
    BE.RoundTrip(tenant.projectID, 4);
    TV.TagValueRoundTrip(BytesOf(name), last);
    TV.TagValueRoundTrip(BytesOf(value), []);
    assert last + [] == last;
    assert StringOf(BytesOf(name)) == name && StringOf(BytesOf(value)) == value;
  }

  /** The ids start behind the second separator. */
  lemma {:induction false} PrefixIsFound(front: TR.Row, name: TR.Row, value: TR.Row, data: TR.Row)
    requires |front| == 9 && data != []
    ensures var prefix := front + TV.Escaped(name) + [1] + TV.Escaped(value) + [1];
            TR.PrefixEnd(prefix + data) == |prefix|
  {
    var row := front + TV.Escaped(name) + [1] + TV.Escaped(value) + [1] + data;
    var i := 9 + |TV.Escaped(name)|;
    var j := i + 1 + |TV.Escaped(value)|;
    TV.NoSeparators(name);
    TV.NoSeparators(value);
    assert forall k :: 9 <= k < i ==> row[k] == TV.Escaped(name)[k - 9];
    assert forall k :: i + 1 <= k < j ==> row[k] == TV.Escaped(value)[k - i - 1];
    TV.SeparatorIsFound(row, 9, i);
    TV.SeparatorIsFound(row, i + 1, j);
  }

  lemma {:induction false} RowIsTagRow(row: SI.TagRow)
    requires CanMarshal(row)
    ensures TR.ValidTagRow(MarshalRow(row)) && TR.RowIDs(MarshalRow(row)) == row.ids
    ensures TR.Prefix(MarshalRow(row)) == MarshalPrefix(row.tenant, row.name, row.value)
  {
    var front := [2] + BE.Marshal(row.tenant.accountID, 4) + BE.Marshal(row.tenant.projectID, 4);
    PrefixIsFound(front, BytesOf(row.name), BytesOf(row.value), TR.MarshalIDs(row.ids));
    TR.PrefixAndIDs(MarshalPrefix(row.tenant, row.name, row.value), row.ids);
  }

  lemma {:induction false} RowIsParsed(row: SI.TagRow)
    requires CanMarshal(row)
    ensures ParsedRow(MarshalRow(row), ReadTag) == [row]
  {
    RowIsTagRow(row);
    TagIsRead(row.tenant, row.name, row.value);
  }

  /** Searches see in the bytes of the rows what was written into them. */
  lemma {:induction false} RowsAreRead(rows: seq<SI.TagRow>)
    requires CanMarshalAll(rows)
    ensures Parsed(MarshalRows(rows), ReadTag) == rows
  {
    if rows != [] {
      var front, last := rows[..|rows| - 1], rows[|rows| - 1];
      assert rows == front + [last];
      RowsAreRead(front);
      OneMoreIsRead(front, last);
    }
  }

  lemma {:induction false} OneMoreMarshaled(front: seq<SI.TagRow>, last: SI.TagRow)
    requires CanMarshalAll(front) && CanMarshal(last)
    ensures CanMarshalAll(front + [last]) && MarshalRows(front + [last]) == MarshalRows(front) + [MarshalRow(last)]
  {
    assert (front + [last])[..|front|] == front;
  }

  lemma {:induction false} OneMoreIsRead(front: seq<SI.TagRow>, last: SI.TagRow)
    requires CanMarshalAll(front) && CanMarshal(last) && CanMarshalAll(front + [last])
    requires Parsed(MarshalRows(front), ReadTag) == front
    ensures Parsed(MarshalRows(front + [last]), ReadTag) == front + [last]
  {
    OneMoreMarshaled(front, last);
    RowIsParsed(last);
    OneMoreParsed(MarshalRows(front), MarshalRow(last), ReadTag);
  }

  lemma {:induction false} OneMoreParsed(rows: seq<TR.Row>, row: TR.Row, read: TR.Row -> Tag)
    ensures Parsed(rows + [row], read) == Parsed(rows, read) + ParsedRow(row, read)
  {
    assert (rows + [row])[..|rows|] == rows;
  }

  /** Merging the bytes of an index leaves an index of the same streams. */
  lemma {:induction false} MergedBytesAreIndex(tenantRows: seq<(SI.TenantID, SI.ID)>, rows: seq<SI.TagRow>, out: seq<TR.Row>, streams: set<SI.Stream>)
    requires CanMarshalAll(rows) && TR.SameIndex(MarshalRows(rows), out)
    ensures SI.IsIndexOf(SI.Index(tenantRows, rows), streams) <==> SI.IsIndexOf(SI.Index(tenantRows, Parsed(out, ReadTag)), streams)
  {
    RowsAreRead(rows);
    MergeKeepsStreams(MarshalRows(rows), out, ReadTag, tenantRows, streams);
  }
}
