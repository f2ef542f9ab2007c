/** Which neighbouring rows of the stream index are joined, and what becomes of them. */
module RowGroups {
  import BE = BigEndian

  type StreamID = BE.Uint128
  type Tag = seq<BE.Byte>

  /** A row as the merge sees it: a tag of a tenant with stream ids, or a row of another kind. */
  datatype TagRow = TagRow(tag: Tag, ids: seq<StreamID>) | Other

  // ---------- Lists of ids ----------

  ghost predicate Increasing(ids: seq<StreamID>) {
    forall i, j :: 0 <= i < j < |ids| ==> ids[i] < ids[j]
  }

  ghost predicate SameElements(a: seq<StreamID>, b: seq<StreamID>) {
    forall id :: id in a <==> id in b
  }

  lemma {:induction false} BothEmpty(a: seq<StreamID>, b: seq<StreamID>)
    requires SameElements(a, b)
    ensures a == [] <==> b == []
  {
    assert a != [] ==> a[0] in b;
    assert b != [] ==> b[0] in a;
  }

  /** There is only one way to list ids in increasing order. */
  lemma {:induction false} OnlyOneOrder(a: seq<StreamID>, b: seq<StreamID>)
    requires Increasing(a) && Increasing(b) && SameElements(a, b)
    ensures a == b
  {
    BothEmpty(a, b);
    if a != [] {
      assert a[0] in b && b[0] in a;
      assert a[0] == b[0];
      forall x ensures x in a[1..] <==> x in b[1..] {
        assert x in a[1..] <==> x in a && x != a[0];
        assert x in b[1..] <==> x in b && x != b[0];
      }
      OnlyOneOrder(a[1..], b[1..]);
    }
  }

  // ---------- Groups ----------

  ghost function IDsOf(row: TagRow): seq<StreamID> {
    if row.Other? then [] else row.ids
  }

  /** The stream ids of the rows a, ..., b - 1. */
  ghost function IDsIn(rows: seq<TagRow>, a: nat, b: nat): seq<StreamID>
    requires a <= b <= |rows|
  {
    if a == b then [] else IDsIn(rows, a, b - 1) + IDsOf(rows[b - 1])
  }

  /** Other rows, the first and the last row, and rows of at least 32 ids are not joined. */
  ghost predicate IsSingle(rows: seq<TagRow>, i: nat)
    requires i < |rows|
  {
    rows[i].Other? || i == 0 || i + 1 == |rows| || |rows[i].ids| >= 32
  }

  ghost predicate SameTag(a: TagRow, b: TagRow) {
    a.TagRow? && b.TagRow? && a.tag == b.tag
  }

  /** The rows a, ..., b - 1 go together: one row that is not joined, or rows of one tag, up to the row that
      makes 32 ids of them or up to a row that cannot be added. */
  ghost predicate IsGroup(rows: seq<TagRow>, a: nat, b: nat) {
    a < b <= |rows| && if IsSingle(rows, a) then b == a + 1 else AreAddable(rows, a, b) && IsEnd(rows, a, b)
  }

  ghost predicate AreAddable(rows: seq<TagRow>, a: nat, b: nat)
    requires a < b <= |rows|
  {
    (forall i :: a <= i < b ==> !IsSingle(rows, i) && SameTag(rows[a], rows[i])) && |IDsIn(rows, a, b - 1)| < 32
  }

  ghost predicate IsEnd(rows: seq<TagRow>, a: nat, b: nat)
    requires a < b <= |rows|
  {
    |IDsIn(rows, a, b)| >= 32 || b == |rows| || IsSingle(rows, b) || !SameTag(rows[a], rows[b])
  }

  /** The tag with all ids of a group, in increasing order and each once. */
  ghost predicate IsJoined(rows: seq<TagRow>, a: nat, b: nat, row: TagRow)
    requires a < b <= |rows|
  {
    SameTag(rows[a], row) && Increasing(row.ids) && SameElements(row.ids, IDsIn(rows, a, b))
  }

  lemma {:induction false} IDsOfLongerRun(rows: seq<TagRow>, a: nat, b: nat, c: nat)
    requires a <= b <= c <= |rows|
    ensures |IDsIn(rows, a, b)| <= |IDsIn(rows, a, c)|
  {
    if b < c {
      IDsOfLongerRun(rows, a, b, c - 1);
    }
  }

  lemma {:induction false} NoEarlierEnd(rows: seq<TagRow>, a: nat, b: nat, c: nat)
    requires a < b < c <= |rows| && AreAddable(rows, a, c)
    ensures !IsEnd(rows, a, b)
  {
    IDsOfLongerRun(rows, a, b, c - 1);
  }

  /** Where a group ends is fixed by where it starts. */
  lemma {:induction false} OnlyOneGroup(rows: seq<TagRow>, a: nat, b: nat, c: nat)
    requires IsGroup(rows, a, b) && IsGroup(rows, a, c)
    ensures b == c
  {
    if !IsSingle(rows, a) {
      if b < c {
        NoEarlierEnd(rows, a, b, c);
      } else if c < b {
        NoEarlierEnd(rows, a, c, b);
      }
    }
  }

  lemma {:induction false} OnlyOneRow(rows: seq<TagRow>, a: nat, b: nat, x: TagRow, y: TagRow)
    requires a < b <= |rows| && IsJoined(rows, a, b, x) && IsJoined(rows, a, b, y)
    ensures x == y
  {
    OnlyOneOrder(x.ids, y.ids);
  }

  /** Inner rows of one tag, as many as there are. */
  ghost predicate IsRun(rows: seq<TagRow>, a: nat, b: nat) {
    && 0 < a < b < |rows| && (forall i :: a <= i < b ==> SameTag(rows[a], rows[i]))
    && (a == 1 || !SameTag(rows[a], rows[a - 1])) && (b == |rows| - 1 || !SameTag(rows[a], rows[b]))
  }

  lemma {:induction false} SmallRowInRun(rows: seq<TagRow>, a: nat, b: nat, i: nat)
    requires IsRun(rows, a, b) && |IDsIn(rows, a, b)| < 32 && a <= i < b
    ensures !IsSingle(rows, i)
  {
    IDsOfLongerRun(rows, a, i + 1, b);
    assert SameTag(rows[a], rows[i]);
  }

  /** A group that holds a row of a small run and starts before it holds the row in front of it. */
  lemma {:induction false} StartsWithRun(rows: seq<TagRow>, c: nat, d: nat, a: nat)
    requires IsGroup(rows, c, d) && c <= a < d && !IsSingle(rows, a) && (a == 1 || !SameTag(rows[a], rows[a - 1]))
    ensures c == a
  {
    if c < a {
      PreviousIsSame(rows, c, d, a);
    }
  }

  lemma {:induction false} PreviousIsSame(rows: seq<TagRow>, c: nat, d: nat, a: nat)
    requires IsGroup(rows, c, d) && c < a < d
    ensures SameTag(rows[a], rows[a - 1]) && !IsSingle(rows, a - 1)
  {
    assert SameTag(rows[c], rows[a - 1]) && SameTag(rows[c], rows[a]);
  }

  /** A run of fewer than 32 ids is a group. */
  lemma {:induction false} RunIsGroup(rows: seq<TagRow>, a: nat, b: nat, c: nat, d: nat)
    requires IsRun(rows, a, b) && |IDsIn(rows, a, b)| < 32
    requires IsGroup(rows, c, d) && c <= a < d
    ensures c == a && d == b && !IsSingle(rows, a)
  {
    SmallRowInRun(rows, a, b, a);
    StartsWithRun(rows, c, d, a);
    RunIsOneGroup(rows, a, b);
    OnlyOneGroup(rows, a, b, d);
  }

  lemma {:induction false} RunIsOneGroup(rows: seq<TagRow>, a: nat, b: nat)
    requires IsRun(rows, a, b) && |IDsIn(rows, a, b)| < 32
    ensures IsGroup(rows, a, b)
  {
    forall i | a <= i < b ensures !IsSingle(rows, i) && SameTag(rows[a], rows[i]) {
      SmallRowInRun(rows, a, b, i);
    }
    IDsOfLongerRun(rows, a, b - 1, b);
  }

  // ---------- Collecting a group ----------

  /** The collected ids are those of the rows c, ..., i - 1, which may become one group. */
  ghost predicate Gathers(rows: seq<TagRow>, c: nat, i: nat, tag: Tag, ids: seq<StreamID>) {
    c <= i <= |rows| &&
    if ids == [] then c == i
    else c < i && IDsIn(rows, c, i) == ids && AreAddable(rows, c, i) && rows[c].tag == tag
  }

  lemma {:induction false} GatherMore(rows: seq<TagRow>, c: nat, i: nat, tag: Tag, ids: seq<StreamID>)
    requires i < |rows| && !IsSingle(rows, i) && rows[i].ids != [] && Gathers(rows, c, i, tag, ids) && |ids| < 32
    requires ids == [] || tag == rows[i].tag
    ensures Gathers(rows, c, i + 1, rows[i].tag, ids + rows[i].ids)
  {
    assert IDsIn(rows, c, i) == ids;
    assert IDsIn(rows, c, i + 1) == ids + rows[i].ids;
  }

  ghost predicate MustFlush(rows: seq<TagRow>, i: nat, tag: Tag, ids: seq<StreamID>)
    requires i <= |rows|
  {
    |ids| >= 32 || i == |rows| || IsSingle(rows, i) || rows[i].tag != tag
  }

  lemma {:induction false} GatheredGroup(rows: seq<TagRow>, c: nat, i: nat, tag: Tag, ids: seq<StreamID>, sorted: seq<StreamID>)
    requires Gathers(rows, c, i, tag, ids) && ids != [] && MustFlush(rows, i, tag, ids)
    requires Increasing(sorted) && SameElements(sorted, ids)
    ensures IsGroup(rows, c, i) && !IsSingle(rows, c) && IsJoined(rows, c, i, TagRow(tag, sorted))
  {
    assert SameTag(rows[c], rows[c]);
  }
}
