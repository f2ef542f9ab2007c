/** Search for the rows with the biggest timestamps through count-limited queries.

The storage can only be asked for "up to k rows of this time range, in any order".
`GetLastNQueryResults` narrows the time range until such a query returns rows that are
known to contain the wanted ones. */
module LastN {
  import opened Sorting

  const MIN_INT64 := -0x8000_0000_0000_0000
  const MAX_INT64 := 0x7fff_ffff_ffff_ffff
  const NSECS_PER_SECOND := 1_000_000_000

  datatype Field = Field(name: string, value: string)
  datatype LogRow = LogRow(timestamp: int, fields: seq<Field>)

  datatype Window = NoWindow | Window(start: int, end: int)

  /** How the search ended. `OneNanosecond` records the last probed window and the last window
      whose probe had hit its row limit. */
  datatype Exit = FewRows | SmallWindow | EnoughRows | OneNanosecond(start: int, end: int, last: Window)

  function Min(a: nat, b: nat): nat {
    if a < b then a else b
  }

  /** x/2 with the division truncating toward zero; `/` below rounds down. */
  function Half(x: int): int {
    (if x < 0 then x + 1 else x) / 2
  }

  /** The rows of db with lo <= timestamp < hi. */
  ghost function RowsIn(db: seq<LogRow>, lo: int, hi: int): multiset<LogRow> {
    if db == [] then multiset{}
    else (if lo <= db[0].timestamp < hi then multiset{db[0]} else multiset{}) + RowsIn(db[1..], lo, hi)
  }

  ghost function Count(db: seq<LogRow>, lo: int, hi: int): nat {
    if db == [] then 0
    else (if lo <= db[0].timestamp < hi then 1 else 0) + Count(db[1..], lo, hi)
  }

  lemma {:induction false} CountIsSize(db: seq<LogRow>, lo: int, hi: int)
    ensures |RowsIn(db, lo, hi)| == Count(db, lo, hi) <= |db|
  {
    if db != [] {
      CountIsSize(db[1..], lo, hi);
    }
  }

  ghost predicate Descending(rows: seq<LogRow>) {
    forall i, j :: 0 <= i < j < |rows| ==> rows[i].timestamp >= rows[j].timestamp
  }

  ghost predicate Below(xs: multiset<LogRow>, ys: multiset<LogRow>) {
    forall x, y :: x in xs && y in ys ==> x.timestamp <= y.timestamp
  }

  /** rows are `limit` rows of `all` with the biggest timestamps, newest first. */
  ghost predicate IsLastN(rows: seq<LogRow>, all: multiset<LogRow>, limit: nat) {
    && Descending(rows)
    && multiset(rows) <= all
    && |rows| == Min(limit, |all|)
    && Below(all - multiset(rows), multiset(rows))
  }

  lemma {:induction false} RowsInRange(db: seq<LogRow>, lo: int, hi: int, r: LogRow)
    requires r in RowsIn(db, lo, hi)
    ensures lo <= r.timestamp < hi
  {
    if !(lo <= db[0].timestamp < hi && r == db[0]) {
      RowsInRange(db[1..], lo, hi, r);
    }
  }

  lemma {:induction false} EmptyRange(db: seq<LogRow>, t: int)
    ensures RowsIn(db, t, t) == multiset{}
  {
    if db != [] {
      EmptyRange(db[1..], t);
    }
  }

  lemma {:induction false} RowsInSplit(db: seq<LogRow>, lo: int, mid: int, hi: int)
    requires lo <= mid <= hi
    ensures RowsIn(db, lo, hi) == RowsIn(db, lo, mid) + RowsIn(db, mid, hi)
  {
    if db != [] {
      RowsInSplit(db[1..], lo, mid, hi);
    }
  }

  lemma {:induction false} SubmultisetOfSameSize(a: multiset<LogRow>, b: multiset<LogRow>)
    requires a <= b && |a| == |b|
    ensures a == b
  {
    assert b == a + (b - a);
    assert |b| == |a| + |b - a|;
  }

  /** Everything at or above the cut, plus enough of the biggest rows below it, is enough. */
  lemma {:induction false} CutSuffices(rows: seq<LogRow>, above: multiset<LogRow>, below: multiset<LogRow>,
                    kept: multiset<LogRow>, limit: nat)
    requires kept <= below && Below(below, above) && Below(below - kept, kept)
    requires limit <= |above + kept|
    requires IsLastN(rows, above + kept, limit)
    ensures IsLastN(rows, above + below, limit)
  {
    var all := above + below;
    assert all == (above + kept) + (below - kept);
    assert |all| == |above + kept| + |below - kept|;
    forall x, y | x in all - multiset(rows) && y in multiset(rows)
      ensures x.timestamp <= y.timestamp
    {
      if x !in (above + kept) - multiset(rows) {
        assert x in below - kept;
        assert y in above + kept;
      }
    }
  }

  /** Runs a query with a time filter [start, end] and a row limit; which rows of a too long
      result survive the limit is up to the storage. */
  method GetQueryResults(db: seq<LogRow>, start: int, end: int, limit: nat) returns (rows: seq<LogRow>)
    ensures multiset(rows) <= RowsIn(db, start, end + 1)
    ensures |rows| == Min(limit, Count(db, start, end + 1))
  {
    rows := [];
    var i := |db|;
    while i > 0
      invariant 0 <= i <= |db|
      invariant multiset(rows) <= RowsIn(db[i..], start, end + 1)
      invariant |rows| == Min(limit, |RowsIn(db[i..], start, end + 1)|)
    {
      i := i - 1;
      RowsFrom(db, i, start, end + 1);
      if start <= db[i].timestamp <= end && |rows| < limit {
        OneMoreRow(rows, db[i], RowsIn(db[i + 1..], start, end + 1));
        rows := rows + [db[i]];
      }
    }
    assert db[0..] == db;
    CountIsSize(db, start, end + 1);
  }

  lemma {:induction false} RowsFrom(db: seq<LogRow>, i: nat, lo: int, hi: int)
    requires i < |db|
    ensures RowsIn(db[i..], lo, hi) == (if lo <= db[i].timestamp < hi then multiset{db[i]} else multiset{}) + RowsIn(db[i + 1..], lo, hi)
  {
    assert db[i..][1..] == db[i + 1..];
  }

  lemma {:induction false} OneMoreRow(rows: seq<LogRow>, row: LogRow, all: multiset<LogRow>)
    requires multiset(rows) <= all && |rows| == |all|
    ensures multiset(rows + [row]) <= multiset{row} + all && |rows + [row]| == |multiset{row} + all|
  {
    SubmultisetOfSameSize(multiset(rows), all);
    assert multiset(rows + [row]) == multiset(rows) + multiset{row};
  }

  predicate NotOlder(a: LogRow, b: LogRow) {
    a.timestamp >= b.timestamp
  }

  method GetLastNRows(rows: seq<LogRow>, limit: nat) returns (last: seq<LogRow>)
    ensures IsLastN(last, multiset(rows), limit)
  {
    last := Sort(rows, NotOlder);
    assert forall i, j :: 0 <= i < j < |last| ==> NotOlder(last[i], last[j]);
    if |last| > limit {
      PrefixIsLastN(last, limit);
      last := last[..limit];
    }
  }

  lemma {:induction false} PrefixIsLastN(sorted: seq<LogRow>, limit: nat)
    requires Descending(sorted) && limit <= |sorted|
    ensures IsLastN(sorted[..limit], multiset(sorted), limit)
  {
    var newer, older := sorted[..limit], sorted[limit..];
    assert sorted == newer + older;
    NewerGoFirst(sorted, limit, newer, older);
    assert multiset(sorted) == multiset(newer) + multiset(older);
    assert multiset(sorted) - multiset(newer) == multiset(older);
    assert |multiset(sorted)| == |sorted|;
  }

  lemma {:induction false} NewerGoFirst(sorted: seq<LogRow>, limit: nat, newer: seq<LogRow>, older: seq<LogRow>)
    requires Descending(sorted) && limit <= |sorted| && newer == sorted[..limit] && older == sorted[limit..]
    ensures Descending(newer) && Below(multiset(older), multiset(newer))
  {
    forall x, y | x in multiset(older) && y in multiset(newer)
      ensures x.timestamp <= y.timestamp
    {
      var i :| 0 <= i < |older| && older[i] == x;
      var j :| 0 <= j < |newer| && newer[j] == y;
      assert sorted[limit + i] == x && sorted[j] == y;
    }
  }

  /** Up to n rows with the biggest timestamps on [start, end], found by sorting them all. */
  method GetLogRowsLastN(db: seq<LogRow>, start: int, end: int, n: nat) returns (last: seq<LogRow>)
    ensures Keeps(db, start, end + 1, last)
    ensures |last| == Min(n, Count(db, start, end + 1))
  {
    var rows := GetQueryResults(db, start, end, |db|);
    CountIsSize(db, start, end + 1);
    SubmultisetOfSameSize(multiset(rows), RowsIn(db, start, end + 1));
    last := GetLastNRows(rows, n);
  }

  /** The probed window [start, end) is the upper half of [lo, end). The code keeps no lo;
      that there always is one makes the loop a binary search and keeps `start - d` in range. */
  ghost predicate UpperHalf(lo: int, start: int, end: int) {
    MIN_INT64 <= lo <= start <= end <= MAX_INT64 && start - lo == Half(end) - Half(lo)
  }

  /** kept is all of the window [start, end), or as many of its biggest rows. */
  ghost predicate Keeps(db: seq<LogRow>, start: int, end: int, kept: seq<LogRow>) {
    multiset(kept) <= RowsIn(db, start, end) && Below(RowsIn(db, start, end) - multiset(kept), multiset(kept))
  }

  /** What is kept of the window [start, end) and what is left out of [lo, end). */
  lemma {:induction false} LastRowsOfWindow(db: seq<LogRow>, lo: int, start: int, end: int, top: int, kept: multiset<LogRow>)
    requires lo <= start <= end <= top
    requires kept <= RowsIn(db, start, end) && Below(RowsIn(db, start, end) - kept, kept)
    ensures kept <= RowsIn(db, lo, end)
    ensures Below(RowsIn(db, lo, end), RowsIn(db, end, top))
    ensures Below(RowsIn(db, lo, end) - kept, kept)
  {
    RowsInSplit(db, lo, start, end);
    forall r | r in RowsIn(db, lo, end) ensures r.timestamp < end {
      RowsInRange(db, lo, end, r);
    }
    forall r | r in RowsIn(db, end, top) ensures end <= r.timestamp {
      RowsInRange(db, end, top, r);
    }
    forall r | r in RowsIn(db, lo, start) ensures r.timestamp < start {
      RowsInRange(db, lo, start, r);
    }
    forall r | r in RowsIn(db, start, end) ensures start <= r.timestamp {
      RowsInRange(db, start, end, r);
    }
  }

  /** All rows from `end` on, plus enough of the biggest ones of the window, hold the answer. */
  lemma {:induction false} FoundRowsSuffice(db: seq<LogRow>, lo: int, start: int, end: int, top: int,
                         found: seq<LogRow>, kept: seq<LogRow>, result: seq<LogRow>, limit: nat)
    requires lo <= start <= end <= top
    requires multiset(found) == RowsIn(db, end, top)
    requires Keeps(db, start, end, kept)
    requires limit <= |found| + |kept|
    requires IsLastN(result, multiset(found + kept), limit)
    ensures IsLastN(result, RowsIn(db, lo, top), limit)
  {
    LastRowsOfWindow(db, lo, start, end, top, multiset(kept));
    assert multiset(found + kept) == multiset(found) + multiset(kept);
    CutSuffices(result, multiset(found), RowsIn(db, lo, end), multiset(kept), limit);
    RowsInSplit(db, lo, end, top);
  }

  lemma {:induction false} WindowHalves(lo: int, start: int, end: int, d: int)
    requires UpperHalf(lo, start, end) && d == Half(end) - Half(start) > 0
    ensures UpperHalf(start, start + d, end)
  {
  }

  /** Sliding the window down to [start - d, start) keeps it an upper half and makes progress. */
  lemma {:induction false} WindowSlides(lo: int, start: int, end: int, d: int)
    requires UpperHalf(lo, start, end) && d == Half(end) - Half(start) > 0
    ensures UpperHalf(lo, start - d, start)
    ensures d < end - start || (d == end - start && Half(start) - Half(start - d) < d)
  {
  }

  lemma {:induction false} WholeWindowIsKept(db: seq<LogRow>, start: int, end: int, rows: seq<LogRow>)
    requires multiset(rows) <= RowsIn(db, start, end) && |rows| == Count(db, start, end)
    ensures multiset(rows) == RowsIn(db, start, end)
    ensures Keeps(db, start, end, rows)
  {
    CountIsSize(db, start, end);
    SubmultisetOfSameSize(multiset(rows), RowsIn(db, start, end));
  }

  lemma {:induction false} FoundGrows(db: seq<LogRow>, start: int, end: int, top: int, found: seq<LogRow>, rows: seq<LogRow>)
    requires start <= end <= top
    requires multiset(found) == RowsIn(db, end, top) && multiset(rows) == RowsIn(db, start, end)
    ensures multiset(found + rows) == RowsIn(db, start, top)
  {
    RowsInSplit(db, start, end, top);
  }

  /** The exit taken by the search loop, computed from row counts only. */
  ghost function SearchExit(db: seq<LogRow>, start: int, end: int, n: nat, last: Window): Exit
    decreases end - start, Half(end) - Half(start)
  {
    var d := Half(end) - Half(start);
    var count := Count(db, start, end);
    if d <= 0 then OneNanosecond(start, end, last)
    else if count >= 2 * n then
      if d <= 1_000_000_000 then SmallWindow
      else SearchExit(db, start + d, end, n, Window(start, end))
    else if count >= n then EnoughRows
    else SearchExit(db, start - d, start, n - count, last)
  }

  lemma {:induction false} SearchExitHalves(db: seq<LogRow>, start: int, end: int, n: nat, last: Window, start': int)
    requires Count(db, start, end) >= 2 * n && start' - start == Half(end) - Half(start) > NSECS_PER_SECOND
    ensures SearchExit(db, start, end, n, last) == SearchExit(db, start', end, n, Window(start, end))
  {
  }

  lemma {:induction false} SearchExitSlides(db: seq<LogRow>, start: int, end: int, n: nat, last: Window, start': int, n': nat)
    requires Count(db, start, end) == n - n' < n && start - start' == Half(end) - Half(start) > 0
    ensures SearchExit(db, start, end, n, last) == SearchExit(db, start', start, n', last)
  {
  }

  /** The end of the searched range, exclusive; the code does not go past MAX_INT64. */
  function ExclusiveEnd(end: int): int {
    if end < MAX_INT64 then end + 1 else end
  }

  /** What the slow path does on [bottom, top). */
  ghost function SlowPathExit(db: seq<LogRow>, bottom: int, top: int, limit: nat): Exit {
    SearchExit(db, bottom + (Half(top) - Half(bottom)), top, limit, NoWindow)
  }

  method GetLastNQueryResults(db: seq<LogRow>, queryStart: int, queryEnd: int, limit: nat)
    returns (result: seq<LogRow>, exit: Exit)
    requires MIN_INT64 <= queryStart && queryEnd <= MAX_INT64
    requires Half(queryEnd) - Half(queryStart) > NSECS_PER_SECOND
    ensures exit.FewRows? <==> Count(db, queryStart, queryEnd + 1) < 2 * limit
    ensures exit.FewRows? ==> IsLastN(result, RowsIn(db, queryStart, queryEnd + 1), limit)
    ensures !exit.FewRows? ==> exit == SlowPathExit(db, queryStart, ExclusiveEnd(queryEnd), limit)
    ensures exit.SmallWindow? || exit.EnoughRows? ==>
              IsLastN(result, RowsIn(db, queryStart, ExclusiveEnd(queryEnd)), limit)
    ensures exit.OneNanosecond? ==> exists last, rows :: IsOneNanosecondResult(db, ExclusiveEnd(queryEnd), limit, exit, last, rows, result)
  {
    var rows := GetQueryResults(db, queryStart, queryEnd, 2 * limit);
    if |rows| < 2 * limit {
      CountIsSize(db, queryStart, queryEnd + 1);
      SubmultisetOfSameSize(multiset(rows), RowsIn(db, queryStart, queryEnd + 1));
      result := GetLastNRows(rows, limit);
      return result, FewRows;
    }
    result, exit := SearchLastN(db, queryStart, ExclusiveEnd(queryEnd), limit);
  }

  /** The slow path: collects the rows from `end` on, adds what the last window gave, cuts to limit. */
  method SearchLastN(db: seq<LogRow>, bottom: int, top: int, limit: nat)
    returns (result: seq<LogRow>, exit: Exit)
    requires MIN_INT64 <= bottom <= top <= MAX_INT64
    ensures exit == SlowPathExit(db, bottom, top, limit) && !exit.FewRows?
    ensures exit.SmallWindow? || exit.EnoughRows? ==> IsLastN(result, RowsIn(db, bottom, top), limit)
    ensures exit.OneNanosecond? ==> exists last, rows :: IsOneNanosecondResult(db, top, limit, exit, last, rows, result)
  {
    var found, kept;
    ghost var start, end, last, rows;
    found, kept, exit, start, end, last, rows := ProbeWindows(db, bottom, top, limit);
    result := GetLastNRows(found + kept, limit);
    assert multiset(found + kept) == multiset(found) + multiset(kept);
    if exit.SmallWindow? || exit.EnoughRows? {
      FoundRowsSuffice(db, bottom, start, end, top, found, kept, result, limit);
    } else {
      assert IsOneNanosecondResult(db, top, limit, exit, last, rows, result);
    }
  }

  /** What may be returned at a one-nanosecond window: the rows found from its end on, rows of the last
      window that hit its limit, and rows of the window itself; which ones is up to the storage. */
  ghost predicate IsOneNanosecondResult(db: seq<LogRow>, top: int, limit: nat, exit: Exit,
                                        last: multiset<LogRow>, rows: multiset<LogRow>, result: seq<LogRow>) {
    exit.OneNanosecond? && Count(db, exit.end, top) <= limit && AreLastRows(db, top, limit, exit.last, last) &&
    rows <= RowsIn(db, exit.start, exit.end) && |rows| == Min(2 * (limit - Count(db, exit.end, top)), Count(db, exit.start, exit.end)) &&
    IsLastN(result, RowsIn(db, exit.end, top) + last + rows, limit)
  }

  ghost predicate AreLastRows(db: seq<LogRow>, top: int, limit: nat, window: Window, last: multiset<LogRow>) {
    match window
    case NoWindow => last == multiset{}
    case Window(start, end) =>
      Count(db, end, top) <= limit && last <= RowsIn(db, start, end) && |last| == 2 * (limit - Count(db, end, top))
  }

  /** What one probe of the window [start, end) decides. */
  datatype Probe = Stop(kept: seq<LogRow>, exit: Exit) | Narrow(rows: seq<LogRow>) | Slide(rows: seq<LogRow>) | GiveUp(rows: seq<LogRow>)

  ghost predicate IsDecided(db: seq<LogRow>, start: int, end: int, n: nat, p: Probe) {
    var d, count := Half(end) - Half(start), Count(db, start, end);
    match p
    case Narrow(rows) => d > NSECS_PER_SECOND && count >= 2 * n == |rows| && multiset(rows) <= RowsIn(db, start, end)
    case Slide(rows) => d > 0 && |rows| == count < n && multiset(rows) == RowsIn(db, start, end)
    case GiveUp(rows) => d <= 0 && |rows| == Min(2 * n, count) && multiset(rows) <= RowsIn(db, start, end)
    case Stop(kept, exit) =>
      && Keeps(db, start, end, kept)
      && (if exit.SmallWindow? then 0 < d <= NSECS_PER_SECOND && count >= 2 * n && |kept| == n
          else exit.EnoughRows? && d > 0 && n <= |kept| == count < 2 * n)
  }

  method ProbeWindow(db: seq<LogRow>, start: int, end: int, n: nat, foundCount: nat, limit: nat)
    returns (p: Probe)
    requires start <= end && n + foundCount == limit
    ensures IsDecided(db, start, end, n, p)
  {
    var rows := GetQueryResults(db, start, end - 1, 2 * n);
    var d := Half(end) - Half(start);
    if d <= 0 {
      return GiveUp(rows);
    }
    if |rows| >= 2 * n {
      if d <= NSECS_PER_SECOND {
        var kept := GetLogRowsLastN(db, start, end - 1, n);
        return Stop(kept, SmallWindow);
      }
      return Narrow(rows);
    }
    WholeWindowIsKept(db, start, end, rows);
    if foundCount + |rows| >= limit {
      return Stop(rows, EnoughRows);
    }
    return Slide(rows);
  }

  /** Where the search is: what has been found, and the rows of the last window that hit its limit. */
  ghost predicate Searching(db: seq<LogRow>, bottom: int, top: int, limit: nat, lo: int, start: int, end: int, n: nat,
                            found: seq<LogRow>, last: Window, lastRows: seq<LogRow>, exit: Exit) {
    bottom <= lo && end <= top && UpperHalf(lo, start, end) && multiset(found) == RowsIn(db, end, top) && n + |found| == limit &&
    AreLastRows(db, top, limit, last, multiset(lastRows)) &&
    SearchExit(db, start, end, n, last) == exit
  }

  lemma {:induction false} SearchStarts(db: seq<LogRow>, bottom: int, top: int, limit: nat)
    requires MIN_INT64 <= bottom <= top <= MAX_INT64
    ensures Searching(db, bottom, top, limit, bottom, bottom + (Half(top) - Half(bottom)), top, limit, [], NoWindow, [], SlowPathExit(db, bottom, top, limit))
  {
    EmptyRange(db, top);
  }

  lemma {:induction false} SearchStops(db: seq<LogRow>, bottom: int, top: int, limit: nat, lo: int, start: int, end: int, n: nat,
                                       found: seq<LogRow>, last: Window, lastRows: seq<LogRow>, exit: Exit, kept: seq<LogRow>, reason: Exit)
    requires Searching(db, bottom, top, limit, lo, start, end, n, found, last, lastRows, exit)
    requires IsDecided(db, start, end, n, Stop(kept, reason))
    ensures exit == reason && (reason.SmallWindow? || reason.EnoughRows?)
    ensures limit <= |found| + |kept| && Keeps(db, start, end, kept)
  {
  }

  lemma {:induction false} SearchGaveUp(db: seq<LogRow>, bottom: int, top: int, limit: nat, lo: int, start: int, end: int, n: nat,
                                        found: seq<LogRow>, last: Window, lastRows: seq<LogRow>, exit: Exit, rows: seq<LogRow>)
    requires Searching(db, bottom, top, limit, lo, start, end, n, found, last, lastRows, exit) && Half(end) - Half(start) <= 0
    requires |rows| == Min(2 * n, Count(db, start, end)) && multiset(rows) <= RowsIn(db, start, end)
    ensures exit == OneNanosecond(start, end, last)
    ensures AreGivenUpRows(db, top, limit, exit, lastRows + rows, multiset(lastRows), multiset(rows))
  {
    CountIsSize(db, end, top);
    assert |multiset(found)| == |found|;
  }

  lemma {:induction false} SearchNarrows(db: seq<LogRow>, bottom: int, top: int, limit: nat, lo: int, start: int, end: int, n: nat,
                                         found: seq<LogRow>, last: Window, lastRows: seq<LogRow>, exit: Exit, rows: seq<LogRow>, mid: int)
    requires Searching(db, bottom, top, limit, lo, start, end, n, found, last, lastRows, exit)
    requires mid - start == Half(end) - Half(start) > NSECS_PER_SECOND && Count(db, start, end) >= 2 * n == |rows| && multiset(rows) <= RowsIn(db, start, end)
    ensures Searching(db, bottom, top, limit, start, mid, end, n, found, Window(start, end), rows, exit)
    ensures end - mid < end - start
  {
    var d := Half(end) - Half(start);
    WindowHalves(lo, start, end, d);
    SearchExitHalves(db, start, end, n, last, start + d);
    CountIsSize(db, end, top);
    assert |multiset(found)| == |found|;
  }

  lemma {:induction false} SearchSlides(db: seq<LogRow>, bottom: int, top: int, limit: nat, lo: int, start: int, end: int, n: nat,
                                        found: seq<LogRow>, last: Window, lastRows: seq<LogRow>, exit: Exit, rows: seq<LogRow>, low: int)
    requires Searching(db, bottom, top, limit, lo, start, end, n, found, last, lastRows, exit)
    requires start - low == Half(end) - Half(start) > 0 && |rows| == Count(db, start, end) < n && multiset(rows) == RowsIn(db, start, end)
    ensures Searching(db, bottom, top, limit, lo, low, start, n - |rows|, found + rows, last, lastRows, exit)
    ensures start - low < end - start || (start - low == end - start && Half(start) - Half(low) < Half(end) - Half(start))
  {
    var d := Half(end) - Half(start);
    FoundGrows(db, start, end, top, found, rows);
    WindowSlides(lo, start, end, d);
    SearchExitSlides(db, start, end, n, last, start - d, n - |rows|);
  }

  /** The rows of the last window that hit its limit and those of the one-nanosecond window. */
  ghost predicate AreGivenUpRows(db: seq<LogRow>, top: int, limit: nat, exit: Exit, kept: seq<LogRow>,
                                 last: multiset<LogRow>, rows: multiset<LogRow>) {
    exit.OneNanosecond? && multiset(kept) == last + rows && Count(db, exit.end, top) <= limit &&
    AreLastRows(db, top, limit, exit.last, last) && rows <= RowsIn(db, exit.start, exit.end) &&
    |rows| == Min(2 * (limit - Count(db, exit.end, top)), Count(db, exit.start, exit.end))
  }

  /** The next window: the upper half of a window that hit its limit, or the one below a window that is used up. */
  method MoveWindow(ghost db: seq<LogRow>, ghost bottom: int, ghost top: int, ghost limit: nat, ghost lo: int, start: int, end: int, n: nat,
                    found: seq<LogRow>, last: Window, lastRows: seq<LogRow>, ghost exit: Exit, p: Probe)
    returns (start': int, end': int, n': nat, found': seq<LogRow>, last': Window, lastRows': seq<LogRow>, ghost lo': int)
    requires Searching(db, bottom, top, limit, lo, start, end, n, found, last, lastRows, exit)
    requires (p.Narrow? || p.Slide?) && IsDecided(db, start, end, n, p)
    ensures Searching(db, bottom, top, limit, lo', start', end', n', found', last', lastRows', exit)
    ensures 0 <= end' - start' < end - start || (end' - start' == end - start && 0 <= Half(end') - Half(start') < Half(end) - Half(start))
  {
    var d := Half(end) - Half(start);
    found', end', n', last', lastRows', lo' := found, end, n, last, lastRows, lo;
    if p.Narrow? {
      SearchNarrows(db, bottom, top, limit, lo, start, end, n, found, last, lastRows, exit, p.rows, start + d);
      last', lastRows' := Window(start, end), p.rows;
      lo', start' := start, start + d;
    } else {
      SearchSlides(db, bottom, top, limit, lo, start, end, n, found, last, lastRows, exit, p.rows, start - d);
      found', n', end', start' := found + p.rows, n - |p.rows|, start, start - d;
    }
  }

  /** The loop over narrowing and sliding windows [start, end). */
  method ProbeWindows(db: seq<LogRow>, bottom: int, top: int, limit: nat)
    returns (found: seq<LogRow>, kept: seq<LogRow>, exit: Exit, ghost start': int, ghost end': int,
             ghost last': multiset<LogRow>, ghost rows': multiset<LogRow>)
    requires MIN_INT64 <= bottom <= top <= MAX_INT64
    ensures exit == SlowPathExit(db, bottom, top, limit) && !exit.FewRows?
    ensures bottom <= start' <= end' <= top && multiset(found) == RowsIn(db, end', top)
    ensures exit.SmallWindow? || exit.EnoughRows? ==>
              limit <= |found| + |kept| && Keeps(db, start', end', kept)
    ensures exit.OneNanosecond? ==> exit.start == start' && exit.end == end' && AreGivenUpRows(db, top, limit, exit, kept, last', rows')
  {
    ghost var lo := bottom;
    var start, end := bottom + (Half(top) - Half(bottom)), top;
    var n: nat := limit;
    SearchStarts(db, bottom, top, limit);
    found := [];
    var lastNonEmptyRows: seq<LogRow> := [];
    var last := NoWindow;
    ghost var result := SlowPathExit(db, bottom, top, limit);
    while true
      invariant Searching(db, bottom, top, limit, lo, start, end, n, found, last, lastNonEmptyRows, result)
      decreases end - start, Half(end) - Half(start)
    {
      var p := ProbeWindow(db, start, end, n, |found|, limit);
      match p {
        case Stop(rows, reason) =>
          SearchStops(db, bottom, top, limit, lo, start, end, n, found, last, lastNonEmptyRows, result, rows, reason);
          return found, rows, reason, start, end, multiset{}, multiset{};
        case GiveUp(rows) =>
          SearchGaveUp(db, bottom, top, limit, lo, start, end, n, found, last, lastNonEmptyRows, result, rows);
          return found, lastNonEmptyRows + rows, OneNanosecond(start, end, last), start, end, multiset(lastNonEmptyRows), multiset(rows);
        case _ =>
          start, end, n, found, last, lastNonEmptyRows, lo := MoveWindow(db, bottom, top, limit, lo, start, end, n, found, last, lastNonEmptyRows, result, p);
      }
    }
  }

  // ---------- When the search gives up at a one-nanosecond window ----------

  ghost function CountNear(db: seq<LogRow>, t: int): nat {
    Count(db, t, t + 3)
  }

  /** No three consecutive nanoseconds hold two rows. */
  ghost predicate Sparse(db: seq<LogRow>) {
    forall t :: CountNear(db, t) < 2
  }

  lemma {:induction false} CountSplit(db: seq<LogRow>, lo: int, mid: int, hi: int)
    requires lo <= mid <= hi
    ensures Count(db, lo, hi) == Count(db, lo, mid) + Count(db, mid, hi)
  {
    if db != [] {
      CountSplit(db[1..], lo, mid, hi);
    }
  }

  /** [lo, end) always holds twice the rows still wanted, so a one-nanosecond window
      can only be reached when at least two rows share three nanoseconds. */
  lemma {:induction false} SparseSearchSucceeds(db: seq<LogRow>, lo: int, start: int, end: int, n: nat, last: Window)
    requires UpperHalf(lo, start, end) && Count(db, lo, end) >= 2 * n && Sparse(db)
    requires n > 0 || Half(end) > Half(start)
    ensures !SearchExit(db, start, end, n, last).OneNanosecond?
    decreases end - start, Half(end) - Half(start)
  {
    var d, count := Half(end) - Half(start), Count(db, start, end);
    if d <= 0 {
      var near := CountNear(db, lo);
      CountSplit(db, lo, end, lo + 3);
    } else if count >= 2 * n {
      if d > NSECS_PER_SECOND {
        SparseSearchSucceeds(db, start, start + d, end, n, Window(start, end));
      }
    } else if count < n {
      CountSplit(db, lo, start, end);
      WindowSlides(lo, start, end, d);
      SparseSearchSucceeds(db, lo, start - d, start, n - count, last);
    }
  }

  lemma {:induction false} SparseRowsAreFound(db: seq<LogRow>, bottom: int, top: int, limit: nat)
    requires MIN_INT64 <= bottom <= top <= MAX_INT64 && Half(top) - Half(bottom) > NSECS_PER_SECOND
    requires Count(db, bottom, top) >= 2 * limit && Sparse(db)
    ensures SlowPathExit(db, bottom, top, limit).SmallWindow? || SlowPathExit(db, bottom, top, limit).EnoughRows?
  {
    SparseSearchSucceeds(db, bottom, bottom + (Half(top) - Half(bottom)), top, limit, NoWindow);
    SearchExitIsNeverFewRows(db, bottom + (Half(top) - Half(bottom)), top, limit, NoWindow);
  }

  lemma {:induction false} SearchExitIsNeverFewRows(db: seq<LogRow>, start: int, end: int, n: nat, last: Window)
    ensures !SearchExit(db, start, end, n, last).FewRows?
    decreases end - start, Half(end) - Half(start)
  {
    var d, count := Half(end) - Half(start), Count(db, start, end);
    if d > NSECS_PER_SECOND && count >= 2 * n {
      SearchExitIsNeverFewRows(db, start + d, end, n, Window(start, end));
    } else if d > 0 && count < n {
      SearchExitIsNeverFewRows(db, start - d, start, n - count, last);
    }
  }

  /** Rounding never lets the window reach an odd positive bottom. */
  lemma {:induction false} OddBottomIsNeverProbed(db: seq<LogRow>, bottom: int, start: int, end: int, n: nat)
    requires UpperHalf(bottom, start, end) && bottom % 2 == 1 && 0 < bottom < end && n > 0
    requires Count(db, bottom + 1, end) == 0
    ensures var exit := SearchExit(db, start, end, n, NoWindow);
            exit.OneNanosecond? && bottom < exit.start <= exit.end && exit.last.NoWindow?
    decreases end - start, Half(end) - Half(start)
  {
    var d := Half(end) - Half(start);
    CountSplit(db, bottom + 1, start, end);
    if d > 0 {
      OddBottomIsNeverProbed(db, bottom, start - d, start, n);
    }
  }

  /** The windows with which the search gives up. */
  ghost predicate GivesUp(db: seq<LogRow>, bottom: int, top: int, limit: nat, exit: Exit) {
    exit.OneNanosecond? && bottom <= exit.start <= exit.end <= top && Half(exit.end) <= Half(exit.start) &&
    IsWanted(db, top, limit, exit.end) &&
    match exit.last
    case NoWindow => true
    case Window(s, e) =>
      bottom <= s && exit.end <= e <= top && UpperHalf(s, exit.start, exit.end) && IsWanted(db, top, limit, e) &&
      Count(db, s, e) >= 2 * (limit - Count(db, e, top))
  }

  /** Rows below end are still wanted. */
  ghost predicate IsWanted(db: seq<LogRow>, top: int, limit: nat, end: int) {
    Count(db, end, top) <= limit && (limit > 0 ==> Count(db, end, top) < limit)
  }

  lemma {:induction false} SearchGivesUp(db: seq<LogRow>, bottom: int, top: int, limit: nat, lo: int, start: int, end: int, n: nat, last: Window)
    requires bottom <= lo && end <= top && UpperHalf(lo, start, end) && n + Count(db, end, top) == limit && (limit > 0 ==> n > 0)
    requires last.Window? ==> last.start == lo && end <= last.end <= top && IsWanted(db, top, limit, last.end) &&
                              Count(db, lo, last.end) >= 2 * (limit - Count(db, last.end, top))
    ensures var exit := SearchExit(db, start, end, n, last);
            exit.OneNanosecond? ==> GivesUp(db, bottom, top, limit, exit)
    decreases end - start, Half(end) - Half(start)
  {
    var d, count := Half(end) - Half(start), Count(db, start, end);
    if d > 0 {
      if count >= 2 * n && d > NSECS_PER_SECOND {
        WindowHalves(lo, start, end, d);
        SearchGivesUp(db, bottom, top, limit, start, start + d, end, n, Window(start, end));
      } else if count < n {
        WindowSlides(lo, start, end, d);
        CountSplit(db, start, end, top);
        SearchGivesUp(db, bottom, top, limit, lo, start - d, start, n - count, last);
      }
    }
  }

  lemma {:induction false} SlowPathGivesUp(db: seq<LogRow>, bottom: int, top: int, limit: nat)
    requires MIN_INT64 <= bottom <= top <= MAX_INT64
    ensures var exit := SlowPathExit(db, bottom, top, limit);
            exit.OneNanosecond? ==> GivesUp(db, bottom, top, limit, exit)
  {
    EmptyRange(db, top);
    CountIsSize(db, top, top);
    SearchGivesUp(db, bottom, top, limit, bottom, bottom + (Half(top) - Half(bottom)), top, limit, NoWindow);
  }

  /** A family of inputs the search gets wrong: all rows of the range, at least 2*limit of
      them, share the first nanosecond of the range, which is odd and positive. Every run of
      `SearchLastN` then returns nothing. */
  lemma {:induction false} OddBottomLosesAllRows(db: seq<LogRow>, bottom: int, top: int, limit: nat,
                                                 last: multiset<LogRow>, rows: multiset<LogRow>, result: seq<LogRow>)
    requires 0 < bottom < top <= MAX_INT64 && bottom % 2 == 1 && limit > 0
    requires Count(db, bottom, top) >= 2 * limit && Count(db, bottom + 1, top) == 0
    ensures var exit := SlowPathExit(db, bottom, top, limit);
            && exit.OneNanosecond? && exit.last.NoWindow?
            && (IsOneNanosecondResult(db, top, limit, exit, last, rows, result) ==>
                  result == [] && !IsLastN(result, RowsIn(db, bottom, top), limit))
  {
    OddBottomIsNeverProbed(db, bottom, bottom + (Half(top) - Half(bottom)), top, limit);
    SlowPathGivesUp(db, bottom, top, limit);
    var exit := SlowPathExit(db, bottom, top, limit);
    if IsOneNanosecondResult(db, top, limit, exit, last, rows, result) {
      NothingAboveBottom(db, bottom, top, exit.start, exit.end);
      CountIsSize(db, bottom, top);
      NothingIsReturned(result, RowsIn(db, bottom, top), limit);
    }
  }

  lemma {:induction false} NothingAboveBottom(db: seq<LogRow>, bottom: int, top: int, start: int, end: int)
    requires bottom < start <= end <= top && Count(db, bottom + 1, top) == 0
    ensures RowsIn(db, start, end) == multiset{} && RowsIn(db, end, top) == multiset{}
  {
    CountIsSize(db, bottom + 1, top);
    RowsInSplit(db, bottom + 1, start, top);
    RowsInSplit(db, start, end, top);
  }

  lemma {:induction false} NothingIsReturned(result: seq<LogRow>, all: multiset<LogRow>, limit: nat)
    requires IsLastN(result, multiset{}, limit) && limit > 0 && |all| > 0
    ensures result == [] && !IsLastN(result, all, limit)
  {
  }
}
