/** Finding streams by filters on their tags. */
module StreamIndex {

  datatype TenantID = TenantID(accountID: nat, projectID: nat)

  type ID = int

  /** A registered stream. */
  datatype Stream = Stream(tenant: TenantID, id: ID, tags: map<string, string>)

  function TagValue(s: Stream, name: string): string {
    if name in s.tags then s.tags[name] else ""
  }

  /** The id of a stream is a hash of its tags; tags with empty values are not stored. */
  ghost predicate ValidStreams(streams: set<Stream>) {
    && (forall s, t :: s in streams && t in streams && s.tenant == t.tenant && s.id == t.id ==> s == t)
    && forall s, name :: s in streams && name in s.tags ==> s.tags[name] != ""
  }

  // ---------- The index ----------

  /** A row tenant:name:value -> streamIDs. */
  datatype TagRow = TagRow(tenant: TenantID, name: string, value: string, ids: seq<ID>)

  datatype Entry = Entry(tenant: TenantID, name: string, value: string, id: ID)

  datatype Index = Index(tenantRows: seq<(TenantID, ID)>, tagRows: seq<TagRow>)

  ghost function RowEntries(row: TagRow): set<Entry> {
    set id | id in row.ids :: Entry(row.tenant, row.name, row.value, id)
  }

  /** What the rows say, however they were merged. */
  ghost function Entries(rows: seq<TagRow>): set<Entry> {
    if rows == [] then {} else Entries(rows[..|rows| - 1]) + RowEntries(rows[|rows| - 1])
  }

  ghost function StreamEntries(s: Stream): set<Entry> {
    set name | name in s.tags :: Entry(s.tenant, name, s.tags[name], s.id)
  }

  /** The index of the registered streams. */
  ghost predicate IsIndexOf(idx: Index, streams: set<Stream>) {
    && (forall tenant, id :: (tenant, id) in idx.tenantRows <==> IsRegistered(streams, tenant, id))
    && forall e :: e in Entries(idx.tagRows) <==> exists s :: s in streams && e in StreamEntries(s)
  }

  ghost predicate IsRegistered(streams: set<Stream>, tenant: TenantID, id: ID) {
    exists s :: s in streams && s.tenant == tenant && s.id == id
  }

  lemma {:induction false} EntriesConcat(a: seq<TagRow>, b: seq<TagRow>)
    ensures Entries(a + b) == Entries(a) + Entries(b)
  {
    if b == [] {
      assert a + b == a;
    } else {
      assert (a + b)[..|a + b| - 1] == a + b[..|b| - 1];
      EntriesConcat(a, b[..|b| - 1]);
    }
  }

  method MustRegisterStream(idx: Index, s: Stream, ghost streams: set<Stream>) returns (idx': Index)
    requires IsIndexOf(idx, streams)
    ensures IsIndexOf(idx', streams + {s})
  {
    var tagRows := [];
    var left := s.tags.Keys;
    while left != {}
      invariant left <= s.tags.Keys
      invariant Entries(tagRows) == set name | name in s.tags && name !in left :: Entry(s.tenant, name, s.tags[name], s.id)
    {
      var name :| name in left;
      var row := TagRow(s.tenant, name, s.tags[name], [s.id]);
      assert (tagRows + [row])[..|tagRows|] == tagRows;
      tagRows := tagRows + [row];
      left := left - {name};
    }
    idx' := Index(idx.tenantRows + [(s.tenant, s.id)], idx.tagRows + tagRows);
    EntriesConcat(idx.tagRows, tagRows);
    assert Entries(tagRows) == StreamEntries(s);
    StreamRegistered(idx, tagRows, s, streams);
  }

  lemma {:induction false} StreamRegistered(idx: Index, tagRows: seq<TagRow>, s: Stream, streams: set<Stream>)
    requires IsIndexOf(idx, streams) && Entries(tagRows) == StreamEntries(s)
    ensures IsIndexOf(Index(idx.tenantRows + [(s.tenant, s.id)], idx.tagRows + tagRows), streams + {s})
  {
    var idx' := Index(idx.tenantRows + [(s.tenant, s.id)], idx.tagRows + tagRows);
    EntriesConcat(idx.tagRows, tagRows);
    forall tenant, id ensures (tenant, id) in idx'.tenantRows <==> IsRegistered(streams + {s}, tenant, id) {
      if IsRegistered(streams, tenant, id) {
        var t :| t in streams && t.tenant == tenant && t.id == id;
        assert t in streams + {s};
      }
      assert s in streams + {s};
    }
    forall e ensures e in Entries(idx'.tagRows) <==> exists t :: t in streams + {s} && e in StreamEntries(t) {
      if e in Entries(idx.tagRows) {
        var t :| t in streams && e in StreamEntries(t);
        assert t in streams + {s};
      }
      if e in StreamEntries(s) {
        assert s in streams + {s};
      }
    }
  }

  // ---------- Rows of a tenant, a tag name or a tag value ----------

  method GetStreamIDsForTenant(idx: Index, tenant: TenantID) returns (ids: set<ID>)
    ensures forall id :: id in ids <==> (tenant, id) in idx.tenantRows
  {
    ids := {};
    for k := 0 to |idx.tenantRows|
      invariant forall id :: id in ids <==> (tenant, id) in idx.tenantRows[..k]
    {
      assert idx.tenantRows[..k + 1] == idx.tenantRows[..k] + [idx.tenantRows[k]];
      if idx.tenantRows[k].0 == tenant {
        ids := ids + {idx.tenantRows[k].1};
      }
    }
    assert idx.tenantRows[..|idx.tenantRows|] == idx.tenantRows;
  }

  function SetOf(ids: seq<ID>): set<ID> {
    set id | id in ids
  }

  /** Some entry of the tag with an accepted value. */
  ghost predicate HasValue(entries: set<Entry>, tenant: TenantID, name: string, accept: string -> bool, id: ID) {
    exists value :: Entry(tenant, name, value, id) in entries && accept(value)
  }

  lemma {:induction false} OneMoreRow(rows: seq<TagRow>, k: nat, tenant: TenantID, name: string, accept: string -> bool)
    requires k < |rows|
    ensures forall id :: HasValue(Entries(rows[..k + 1]), tenant, name, accept, id) <==>
              || HasValue(Entries(rows[..k]), tenant, name, accept, id)
              || (rows[k].tenant == tenant && rows[k].name == name && accept(rows[k].value) && id in rows[k].ids)
  {
    assert rows[..k + 1][..k] == rows[..k];
    forall id ensures HasValue(Entries(rows[..k + 1]), tenant, name, accept, id) <==>
                        || HasValue(Entries(rows[..k]), tenant, name, accept, id)
                        || (rows[k].tenant == tenant && rows[k].name == name && accept(rows[k].value) && id in rows[k].ids)
    {
      assert forall value :: Entry(tenant, name, value, id) in RowEntries(rows[k]) <==>
               rows[k].tenant == tenant && rows[k].name == name && rows[k].value == value && id in rows[k].ids;
    }
  }

  method GetStreamIDsForNonEmptyTagValue(idx: Index, tenant: TenantID, name: string, tagValue: string) returns (ids: set<ID>)
    ensures forall id :: id in ids <==> HasValue(Entries(idx.tagRows), tenant, name, v => v == tagValue, id)
  {
    ids := {};
    var rows := idx.tagRows;
    for k := 0 to |rows|
      invariant forall id :: id in ids <==> HasValue(Entries(rows[..k]), tenant, name, v => v == tagValue, id)
    {
      OneMoreRow(rows, k, tenant, name, v => v == tagValue);
      if rows[k].tenant == tenant && rows[k].name == name && rows[k].value == tagValue {
        ids := ids + SetOf(rows[k].ids);
      }
    }
    assert rows[..|rows|] == rows;
  }

  method GetStreamIDsForTagName(idx: Index, tenant: TenantID, name: string) returns (ids: set<ID>)
    ensures forall id :: id in ids <==> HasValue(Entries(idx.tagRows), tenant, name, v => true, id)
  {
    ids := {};
    var rows := idx.tagRows;
    for k := 0 to |rows|
      invariant forall id :: id in ids <==> HasValue(Entries(rows[..k]), tenant, name, v => true, id)
    {
      OneMoreRow(rows, k, tenant, name, v => true);
      if rows[k].tenant == tenant && rows[k].name == name {
        ids := ids + SetOf(rows[k].ids);
      }
    }
    assert rows[..|rows|] == rows;
  }

  /** A value is not matched again right after it matched. At the start no value has matched, which is
      kept as the empty value; so a row with an empty value would be taken without a match. */
  method GetStreamIDsForTagRegexp(idx: Index, tenant: TenantID, name: string, re: string -> bool) returns (ids: set<ID>)
    requires forall k :: 0 <= k < |idx.tagRows| ==> idx.tagRows[k].value != ""
    ensures forall id :: id in ids <==> HasValue(Entries(idx.tagRows), tenant, name, re, id)
  {
    ids := {};
    var prevMatchingTagValue := "";
    var rows := idx.tagRows;
    for k := 0 to |rows|
      invariant prevMatchingTagValue == "" || re(prevMatchingTagValue)
      invariant forall id :: id in ids <==> HasValue(Entries(rows[..k]), tenant, name, re, id)
    {
      OneMoreRow(rows, k, tenant, name, re);
      if rows[k].tenant != tenant || rows[k].name != name {
        continue;
      }
      if rows[k].value != prevMatchingTagValue {
        if !re(rows[k].value) {
          continue;
        }
        prevMatchingTagValue := rows[k].value;
      }
      ids := ids + SetOf(rows[k].ids);
    }
    assert rows[..|rows|] == rows;
  }

  // ---------- Filters ----------

  datatype TagFilter =
    | Equal(tagName: string, value: string)
    | NotEqual(tagName: string, value: string)
    | Matches(tagName: string, re: string -> bool)
    | NotMatches(tagName: string, re: string -> bool)

  predicate Accepts(tf: TagFilter, v: string) {
    match tf
    case Equal(_, value) => v == value
    case NotEqual(_, value) => v != value
    case Matches(_, re) => re(v)
    case NotMatches(_, re) => !re(v)
  }

  /** The stream has the tenant and the id, and the filter accepts the value of its tag, "" if it has none. */
  ghost predicate Selected(streams: set<Stream>, tenant: TenantID, tf: TagFilter, id: ID) {
    exists s :: s in streams && s.tenant == tenant && s.id == id && Accepts(tf, TagValue(s, tf.tagName))
  }

  /** How the rows tell the value of a tag. */
  lemma {:induction false} RowsTellValue(idx: Index, streams: set<Stream>, s: Stream, name: string, accept: string -> bool)
    requires IsIndexOf(idx, streams) && ValidStreams(streams) && s in streams
    ensures HasValue(Entries(idx.tagRows), s.tenant, name, accept, s.id) <==> name in s.tags && accept(s.tags[name])
  {
    if name in s.tags {
      assert Entry(s.tenant, name, s.tags[name], s.id) in StreamEntries(s);
    }
    if HasValue(Entries(idx.tagRows), s.tenant, name, accept, s.id) {
      var value :| Entry(s.tenant, name, value, s.id) in Entries(idx.tagRows) && accept(value);
      var t :| t in streams && Entry(s.tenant, name, value, s.id) in StreamEntries(t);
    }
  }

  lemma {:induction false} ValueIsOfStream(idx: Index, streams: set<Stream>, tenant: TenantID, name: string, accept: string -> bool, id: ID)
    requires IsIndexOf(idx, streams) && HasValue(Entries(idx.tagRows), tenant, name, accept, id)
    ensures IsRegistered(streams, tenant, id)
  {
    var value :| Entry(tenant, name, value, id) in Entries(idx.tagRows) && accept(value);
    var t :| t in streams && Entry(tenant, name, value, id) in StreamEntries(t);
  }

  lemma {:induction false} EntryOfRow(rows: seq<TagRow>, k: nat)
    requires k < |rows|
    ensures RowEntries(rows[k]) <= Entries(rows)
  {
    if k < |rows| - 1 {
      EntryOfRow(rows[..|rows| - 1], k);
    }
  }

  /** Rows are only written for tags of streams, so they have values. */
  lemma {:induction false} RowsHaveValues(idx: Index, streams: set<Stream>)
    requires IsIndexOf(idx, streams) && ValidStreams(streams) && ValidRows(idx)
    ensures forall k :: 0 <= k < |idx.tagRows| ==> idx.tagRows[k].value != ""
  {
    forall k | 0 <= k < |idx.tagRows| ensures idx.tagRows[k].value != "" {
      var row := idx.tagRows[k];
      EntryOfRow(idx.tagRows, k);
      assert Entry(row.tenant, row.name, row.value, row.ids[0]) in RowEntries(row);
      var s :| s in streams && Entry(row.tenant, row.name, row.value, row.ids[0]) in StreamEntries(s);
    }
  }

  ghost predicate ValidRows(idx: Index) {
    forall k :: 0 <= k < |idx.tagRows| ==> idx.tagRows[k].ids != []
  }

  method GetStreamIDsForEmptyTagValue(idx: Index, tenant: TenantID, name: string) returns (ids: set<ID>)
    ensures forall id :: id in ids <==>
              (tenant, id) in idx.tenantRows && !HasValue(Entries(idx.tagRows), tenant, name, v => true, id)
  {
    ids := GetStreamIDsForTenant(idx, tenant);
    var idsForTag := GetStreamIDsForTagName(idx, tenant, name);
    ids := ids - idsForTag;
  }

  /** In terms of the rows: the operator, the rows it looks at, and how it combines them. */
  ghost predicate SelectedByRows(idx: Index, tenant: TenantID, tf: TagFilter, id: ID) {
    var entries := Entries(idx.tagRows);
    match tf
    case Equal(name, value) =>
      if value == "" then (tenant, id) in idx.tenantRows && !HasValue(entries, tenant, name, v => true, id)
      else HasValue(entries, tenant, name, v => v == value, id)
    case NotEqual(name, value) =>
      if value == "" then HasValue(entries, tenant, name, v => true, id)
      else (tenant, id) in idx.tenantRows && !HasValue(entries, tenant, name, v => v == value, id)
    case Matches(name, re) =>
      || (re("") && (tenant, id) in idx.tenantRows && !HasValue(entries, tenant, name, v => true, id))
      || HasValue(entries, tenant, name, re, id)
    case NotMatches(name, re) =>
      && (if re("") then HasValue(entries, tenant, name, v => true, id) else (tenant, id) in idx.tenantRows)
      && !HasValue(entries, tenant, name, re, id)
  }

  lemma {:induction false} RowsSelect(idx: Index, streams: set<Stream>, tenant: TenantID, tf: TagFilter, id: ID)
    requires IsIndexOf(idx, streams) && ValidStreams(streams)
    ensures SelectedByRows(idx, tenant, tf, id) <==> Selected(streams, tenant, tf, id)
  {
    var name := tf.tagName;
    if IsRegistered(streams, tenant, id) {
      var s :| s in streams && s.tenant == tenant && s.id == id;
      RowsTellValue(idx, streams, s, name, v => true);
      match tf
      case Equal(_, value) => RowsTellValue(idx, streams, s, name, v => v == value);
      case NotEqual(_, value) => RowsTellValue(idx, streams, s, name, v => v == value);
      case Matches(_, re) => RowsTellValue(idx, streams, s, name, re);
      case NotMatches(_, re) => RowsTellValue(idx, streams, s, name, re);
    } else {
      if HasValue(Entries(idx.tagRows), tenant, name, v => true, id) {
        ValueIsOfStream(idx, streams, tenant, name, v => true, id);
      }
      if tf.Equal? && HasValue(Entries(idx.tagRows), tenant, name, v => v == tf.value, id) {
        ValueIsOfStream(idx, streams, tenant, name, v => v == tf.value, id);
      }
      if tf.Matches? && HasValue(Entries(idx.tagRows), tenant, name, tf.re, id) {
        ValueIsOfStream(idx, streams, tenant, name, tf.re, id);
      }
    }
  }

  /** Every operator selects exactly the streams of the tenant whose tag value it accepts. */
  method GetStreamIDsForTagFilter(idx: Index, tenant: TenantID, tf: TagFilter, ghost streams: set<Stream>)
    returns (ids: set<ID>)
    requires IsIndexOf(idx, streams) && ValidStreams(streams) && ValidRows(idx)
    ensures forall id :: id in ids <==> Selected(streams, tenant, tf, id)
  {
    RowsHaveValues(idx, streams);
    ids := CombineRows(idx, tenant, tf);
    forall id ensures id in ids <==> Selected(streams, tenant, tf, id) {
      RowsSelect(idx, streams, tenant, tf, id);
    }
  }

  method CombineRows(idx: Index, tenant: TenantID, tf: TagFilter) returns (ids: set<ID>)
    requires forall k :: 0 <= k < |idx.tagRows| ==> idx.tagRows[k].value != ""
    ensures forall id :: id in ids <==> SelectedByRows(idx, tenant, tf, id)
  {
    match tf
    case Equal(name, value) =>
      if value == "" {
        ids := GetStreamIDsForEmptyTagValue(idx, tenant, name);
      } else {
        ids := GetStreamIDsForNonEmptyTagValue(idx, tenant, name, value);
      }
    case NotEqual(name, value) =>
      if value == "" {
        ids := GetStreamIDsForTagName(idx, tenant, name);
      } else {
        ids := GetStreamIDsForTenant(idx, tenant);
        var idsForTag := GetStreamIDsForNonEmptyTagValue(idx, tenant, name, value);
        ids := ids - idsForTag;
      }
    case Matches(name, re) =>
      var idsForRe := GetStreamIDsForTagRegexp(idx, tenant, name, re);
      if re("") {
        ids := GetStreamIDsForEmptyTagValue(idx, tenant, name);
        ids := ids + idsForRe;
      } else {
        ids := idsForRe;
      }
    case NotMatches(name, re) =>
      if re("") {
        ids := GetStreamIDsForTagName(idx, tenant, name);
        if |ids| == 0 {
          return;
        }
      } else {
        ids := GetStreamIDsForTenant(idx, tenant);
      }
      var idsForRe := GetStreamIDsForTagRegexp(idx, tenant, name, re);
      ids := ids - idsForRe;
  }

  // ---------- AND, OR and tenants ----------

  type StreamID = (TenantID, ID)

  /** All filters select the stream; no filters select nothing. */
  ghost predicate SelectedByAll(streams: set<Stream>, tenant: TenantID, tfs: seq<TagFilter>, id: ID) {
    tfs != [] && forall k :: 0 <= k < |tfs| ==> Selected(streams, tenant, tfs[k], id)
  }

  method UpdateStreamIDs(idx: Index, tenant: TenantID, tfs: seq<TagFilter>, dst0: set<StreamID>, ghost streams: set<Stream>)
    returns (dst: set<StreamID>)
    requires IsIndexOf(idx, streams) && ValidStreams(streams) && ValidRows(idx)
    ensures forall t, id :: (t, id) in dst <==>
              (t, id) in dst0 || (t == tenant && SelectedByAll(streams, tenant, tfs, id))
  {
    dst := dst0;
    var m := {};
    for k := 0 to |tfs|
      invariant k == 0 ==> m == {}
      invariant k > 0 ==> forall id :: id in m <==> SelectedByAll(streams, tenant, tfs[..k], id)
    {
      assert tfs[..k + 1][..k] == tfs[..k];
      assert forall id :: SelectedByAll(streams, tenant, tfs[..k + 1], id) <==>
               (k == 0 || SelectedByAll(streams, tenant, tfs[..k], id)) && Selected(streams, tenant, tfs[k], id);
      var ids := GetStreamIDsForTagFilter(idx, tenant, tfs[k], streams);
      if |ids| == 0 {
        return;
      }
      m := if k == 0 then ids else m * ids;
    }
    assert tfs[..|tfs|] == tfs;
    dst := dst + set id | id in m :: (tenant, id);
  }

  method SearchStreamIDs(idx: Index, tenants: seq<TenantID>, orFilters: seq<seq<TagFilter>>, ghost streams: set<Stream>)
    returns (m: set<StreamID>)
    requires IsIndexOf(idx, streams) && ValidStreams(streams) && ValidRows(idx)
    ensures forall t, id :: (t, id) in m <==>
              t in tenants && exists k :: 0 <= k < |orFilters| && SelectedByAll(streams, t, orFilters[k], id)
  {
    m := {};
    for i := 0 to |tenants|
      invariant forall t, id :: (t, id) in m <==>
                  t in tenants[..i] && exists k :: 0 <= k < |orFilters| && SelectedByAll(streams, t, orFilters[k], id)
    {
      assert tenants[..i + 1] == tenants[..i] + [tenants[i]];
      ghost var m0 := m;
      for j := 0 to |orFilters|
        invariant forall t, id :: (t, id) in m <==>
                    || (t, id) in m0
                    || (t == tenants[i] && exists k :: 0 <= k < j && SelectedByAll(streams, t, orFilters[k], id))
      {
        m := UpdateStreamIDs(idx, tenants[i], orFilters[j], m, streams);
      }
    }
    assert tenants[..|tenants|] == tenants;
  }

  // ---------- Listing tenants ----------

  const UINT32_SIZE: nat := 0x1_0000_0000
  const NS_STREAM_ID: nat := 0

  /** The part of an index row that is common to all kinds of rows; rows are sorted by it. */
  datatype RowKey = RowKey(nsPrefix: nat, tenant: TenantID)

  predicate TenantLess(a: TenantID, b: TenantID) {
    a.accountID < b.accountID || (a.accountID == b.accountID && a.projectID < b.projectID)
  }

  predicate KeyLess(a: RowKey, b: RowKey) {
    a.nsPrefix < b.nsPrefix || (a.nsPrefix == b.nsPrefix && TenantLess(a.tenant, b.tenant))
  }

  ghost predicate ValidKeys(keys: seq<RowKey>) {
    && (forall i :: 0 <= i < |keys| ==> keys[i].tenant.accountID < UINT32_SIZE && keys[i].tenant.projectID < UINT32_SIZE)
    && forall i, j :: 0 <= i < j < |keys| ==> !KeyLess(keys[j], keys[i])
  }

  /** The first row that is not less than the key. */
  method Seek(keys: seq<RowKey>, key: RowKey) returns (pos: nat)
    requires ValidKeys(keys)
    ensures pos <= |keys| && (forall i :: 0 <= i < pos ==> KeyLess(keys[i], key))
    ensures forall i :: pos <= i < |keys| ==> !KeyLess(keys[i], key)
  {
    pos := 0;
    while pos < |keys| && KeyLess(keys[pos], key)
      invariant 0 <= pos <= |keys| && forall i :: 0 <= i < pos ==> KeyLess(keys[i], key)
    {
      pos := pos + 1;
    }
  }

  ghost predicate HasStreams(keys: seq<RowKey>, n: nat, tenant: TenantID)
    requires n <= |keys|
  {
    exists i :: 0 <= i < n && keys[i] == RowKey(NS_STREAM_ID, tenant)
  }

  /** Every tenant with streams, in increasing order, each once. */
  method GetTenantIDs(keys: seq<RowKey>) returns (tenants: seq<TenantID>)
    requires ValidKeys(keys)
    ensures forall t :: t in tenants <==> HasStreams(keys, |keys|, t)
    ensures forall i, j :: 0 <= i < j < |tenants| ==> TenantLess(tenants[i], tenants[j])
  {
    tenants := [];
    var pos := Seek(keys, RowKey(NS_STREAM_ID, TenantID(0, 0)));
    while pos < |keys|
      invariant pos <= |keys|
      invariant forall t :: t in tenants <==> HasStreams(keys, pos, t)
      invariant forall i, j :: 0 <= i < j < |tenants| ==> TenantLess(tenants[i], tenants[j])
      invariant forall i, k :: 0 <= i < |tenants| && pos <= k < |keys| ==> KeyLess(RowKey(NS_STREAM_ID, tenants[i]), keys[k])
      decreases |keys| - pos
    {
      var tenant := keys[pos].tenant;
      if keys[pos].nsPrefix != NS_STREAM_ID {
        assert forall i :: pos <= i < |keys| ==> keys[i].nsPrefix != NS_STREAM_ID;
        break;
      }
      ghost var before := tenants;
      tenants := tenants + [tenant];
      var projectID := (tenant.projectID + 1) % UINT32_SIZE;
      var accountID := tenant.accountID;
      if projectID == 0 {
        accountID := (accountID + 1) % UINT32_SIZE;
        if accountID == 0 {
          LastTenant(keys, pos, before, tenant);
          break;
        }
      }
      var next := Seek(keys, RowKey(NS_STREAM_ID, TenantID(accountID, projectID)));
      NextTenant(keys, pos, next, before, tenant, TenantID(accountID, projectID));
      pos := next;
    }
  }

  lemma {:induction false} NextTenant(keys: seq<RowKey>, pos: nat, next: nat, before: seq<TenantID>, tenant: TenantID, t': TenantID)
    requires ValidKeys(keys) && pos < |keys| && next <= |keys| && keys[pos] == RowKey(NS_STREAM_ID, tenant)
    requires t' == if tenant.projectID + 1 < UINT32_SIZE then TenantID(tenant.accountID, tenant.projectID + 1)
                   else TenantID(tenant.accountID + 1, 0)
    requires forall i :: 0 <= i < next ==> KeyLess(keys[i], RowKey(NS_STREAM_ID, t'))
    requires forall i :: next <= i < |keys| ==> !KeyLess(keys[i], RowKey(NS_STREAM_ID, t'))
    requires forall t :: t in before <==> HasStreams(keys, pos, t)
    ensures pos < next && forall t :: t in before + [tenant] <==> HasStreams(keys, next, t)
  {
    assert KeyLess(keys[pos], RowKey(NS_STREAM_ID, t'));
    forall t ensures HasStreams(keys, next, t) <==> HasStreams(keys, pos, t) || t == tenant {
      if t == tenant {
        assert keys[pos] == RowKey(NS_STREAM_ID, t);
      }
    }
  }

  lemma {:induction false} LastTenant(keys: seq<RowKey>, pos: nat, before: seq<TenantID>, tenant: TenantID)
    requires ValidKeys(keys) && pos < |keys| && keys[pos] == RowKey(NS_STREAM_ID, tenant)
    requires tenant == TenantID(UINT32_SIZE - 1, UINT32_SIZE - 1)
    requires forall t :: t in before <==> HasStreams(keys, pos, t)
    ensures forall t :: t in before + [tenant] <==> HasStreams(keys, |keys|, t)
  {
    forall t ensures HasStreams(keys, |keys|, t) <==> HasStreams(keys, pos, t) || t == tenant {
      if t == tenant {
        assert keys[pos] == RowKey(NS_STREAM_ID, t);
      }
    }
  }
}
