/** When the last-N search is right although it gives up at a one-nanosecond window. */
module LastNExact {
  import opened LastN

  type Rows = multiset<LogRow>

  ghost predicate From(m: Rows, t: int) {
    forall r :: r in m ==> t <= r.timestamp
  }

  ghost predicate Until(m: Rows, t: int) {
    forall r :: r in m ==> r.timestamp < t
  }

  function Minus(a: nat, b: nat): nat {
    if a > b then a - b else 0
  }

  // ---------- Multisets of rows ----------

  lemma {:induction false} SizeOfPart(a: Rows, b: Rows)
    requires a <= b
    ensures |a| <= |b| && |b - a| == |b| - |a|
  {
    assert b == a + (b - a);
  }

  lemma {:induction false} Newest(m: Rows) returns (r: LogRow)
    requires m != multiset{}
    ensures r in m && forall x :: x in m ==> x.timestamp <= r.timestamp
    decreases |m|
  {
    var first :| first in m;
    r := first;
    var rest := m - multiset{first};
    if rest != multiset{} {
      SizeOfPart(multiset{first}, m);
      var other := Newest(rest);
      if other.timestamp > first.timestamp {
        r := other;
      }
    }
    forall x | x in m
      ensures x.timestamp <= r.timestamp
    {
      assert x == first || x in rest;
    }
  }

  /** There are rows to be returned for every multiset of rows. */
  lemma {:induction false} LastNExists(m: Rows, limit: nat) returns (rows: seq<LogRow>)
    ensures IsLastN(rows, m, limit)
    decreases limit
  {
    rows := [];
    if limit > 0 && m != multiset{} {
      var r := Newest(m);
      SizeOfPart(multiset{r}, m);
      var rest := LastNExists(m - multiset{r}, limit - 1);
      rows := [r] + rest;
      NewestFirst(m, r, rest, limit);
    }
  }

  lemma {:induction false} NewestFirst(m: Rows, r: LogRow, rest: seq<LogRow>, limit: nat)
    requires limit > 0 && r in m && (forall x :: x in m ==> x.timestamp <= r.timestamp) && IsLastN(rest, m - multiset{r}, limit - 1)
    ensures IsLastN([r] + rest, m, limit)
  {
    SizeOfPart(multiset{r}, m);
    var rows := [r] + rest;
    assert multiset(rows) == multiset{r} + multiset(rest);
    assert m - multiset(rows) == (m - multiset{r}) - multiset(rest);
    OneBeforeOthers(m, r, rest);
  }

  lemma {:induction false} OneBeforeOthers(m: Rows, r: LogRow, rest: seq<LogRow>)
    requires (forall x :: x in m ==> x.timestamp <= r.timestamp) && Descending(rest) && multiset(rest) <= m
    ensures Descending([r] + rest)
  {
    var rows := [r] + rest;
    forall i, j | 0 <= i < j < |rows|
      ensures rows[i].timestamp >= rows[j].timestamp
    {
      if i == 0 {
        assert rows[j] in multiset(rest);
      }
    }
  }

  /** The newer rows go first, and all of them are returned. */
  lemma {:induction false} LastNOfParts(newer: Rows, older: Rows, limit: nat) returns (rows: seq<LogRow>)
    requires Below(older, newer) && |newer| <= limit
    ensures IsLastN(rows, newer + older, limit) && newer <= multiset(rows)
  {
    var a := LastNExists(newer, |newer|);
    SameSizeIsSame(multiset(a), newer);
    var b := LastNExists(older, limit - |newer|);
    rows := a + b;
    PartsAreLastN(a, b, newer, older, limit);
  }

  lemma {:induction false} SameSizeIsSame(a: Rows, b: Rows)
    requires a <= b && |a| == |b|
    ensures a == b
  {
    assert b == a + (b - a);
  }

  lemma {:induction false} PartsAreLastN(a: seq<LogRow>, b: seq<LogRow>, newer: Rows, older: Rows, limit: nat)
    requires Below(older, newer) && |newer| <= limit && multiset(a) == newer && Descending(a) && IsLastN(b, older, limit - |newer|)
    ensures IsLastN(a + b, newer + older, limit)
  {
    var rows := a + b;
    assert multiset(rows) == newer + multiset(b);
    assert (newer + older) - multiset(rows) == older - multiset(b);
    assert |multiset(a)| == |a|;
    PartsDescend(a, b, newer, older);
  }

  lemma {:induction false} PartsDescend(a: seq<LogRow>, b: seq<LogRow>, newer: Rows, older: Rows)
    requires Below(older, newer) && multiset(a) == newer && multiset(b) <= older && Descending(a) && Descending(b)
    ensures Descending(a + b)
  {
    var rows := a + b;
    forall i, j | 0 <= i < j < |rows|
      ensures rows[i].timestamp >= rows[j].timestamp
    {
      if i < |a| <= j {
        assert rows[i] in multiset(a) && rows[j] in multiset(b);
      }
    }
  }

  /** Some k rows that include the given ones. */
  lemma {:induction false} Choose(m: Rows, must: Rows, k: nat) returns (c: Rows)
    requires must <= m && |must| <= k <= |m|
    ensures must <= c <= m && |c| == k
    decreases k - |must|
  {
    c := must;
    if |must| < k {
      SizeOfPart(must, m);
      var r :| r in m - must;
      c := Choose(m, must + multiset{r}, k);
    }
  }

  lemma {:induction false} Regroup(above: Rows, a: Rows, newA: Rows, oldA: Rows, b: Rows, newB: Rows, oldB: Rows)
    requires a == newA + oldA && b == newB + oldB
    ensures above + a + b == (above + (newA + newB)) + (oldA + oldB)
    ensures above + a + b == above + (a + b) && a + b == (newA + newB) + (oldA + oldB)
  {
  }

  /** As few of the newer rows as possible among k rows. */
  lemma {:induction false} ChooseOld(older: Rows, newer: Rows, k: nat) returns (c: Rows, fromNewer: Rows)
    requires k <= |older + newer|
    ensures c <= older + newer && fromNewer <= newer && |c| == k && |fromNewer| == Minus(k, |older|)
    ensures fromNewer <= c && c - fromNewer <= older && c == fromNewer + (c - fromNewer)
  {
    if k <= |older| {
      c := Choose(older, multiset{}, k);
      fromNewer := multiset{};
    } else {
      fromNewer := Choose(newer, multiset{}, k - |older|);
      c := older + fromNewer;
    }
  }

  // ---------- What is returned of newer and older rows ----------

  /** With enough newer rows, no older one is returned. */
  lemma {:induction false} OnlyNewer(result: seq<LogRow>, newer: Rows, older: Rows, t: int, limit: nat)
    requires IsLastN(result, newer + older, limit) && From(newer, t) && Until(older, t) && |newer| >= limit
    ensures multiset(result) <= newer && |result| == limit
  {
    var m := multiset(result);
    assert |m| == |result|;
    SizeOfPart(newer, newer + older);
    forall y | y in m
      ensures y !in older
    {
      if y in older {
        SomeIsLeftOut(m, newer, older, y);
      }
    }
  }

  lemma {:induction false} SomeIsLeftOut(m: Rows, newer: Rows, older: Rows, y: LogRow)
    requires y in m && y !in newer && |m| <= |newer|
    ensures exists x :: x in (newer + older) - m && x in newer
  {
    if newer <= m {
      SizeOfPart(newer + multiset{y}, m);
    } else {
      var x :| x in newer && m[x] < newer[x];
      assert x in (newer + older) - m;
    }
  }

  /** With too few newer rows, all of them are returned. */
  lemma {:induction false} AllNewer(result: seq<LogRow>, newer: Rows, older: Rows, t: int, limit: nat)
    requires IsLastN(result, newer + older, limit) && From(newer, t) && Until(older, t) && |newer| <= limit
    ensures newer <= multiset(result)
  {
    var m := multiset(result);
    assert |m| == |result|;
    if !(newer <= m) {
      var x :| x in newer && m[x] < newer[x];
      assert x in (newer + older) - m;
      forall y | y in m
        ensures y in newer && m[y] <= newer[y]
      {
        assert y.timestamp >= x.timestamp;
      }
      assert m <= newer;
      SizeOfPart(m + multiset{x}, newer);
    }
  }

  /** A result with too few of the newer rows is wrong. */
  lemma {:induction false} TooFewNewer(result: seq<LogRow>, newer: Rows, older: Rows, t: int, limit: nat, allNewer: Rows, allOlder: Rows)
    requires IsLastN(result, newer + older, limit) && From(newer, t) && Until(older, t) && |newer| < limit <= |newer + older|
    requires From(allNewer, t) && Until(allOlder, t) && |allNewer| > |newer|
    ensures !IsLastN(result, allNewer + allOlder, limit)
  {
    var m := multiset(result);
    assert |m| == |result| == limit;
    if IsLastN(result, allNewer + allOlder, limit) {
      if |allNewer| <= limit {
        AllNewer(result, allNewer, allOlder, t, limit);
        forall x | x in allNewer
          ensures allNewer[x] <= newer[x]
        {
        }
        SizeOfPart(allNewer, newer);
      } else {
        OnlyNewer(result, allNewer, allOlder, t, limit);
        forall x | x in m
          ensures m[x] <= newer[x]
        {
        }
        SizeOfPart(m, newer);
      }
    }
  }

  /** Rows that are the last ones of some rows are so of more rows, too, when these are not newer. */
  lemma {:induction false} StillLastN(result: seq<LogRow>, newer: Rows, kept: Rows, below: Rows, limit: nat)
    requires IsLastN(result, newer + kept, limit) && kept <= below && Below(below, newer) && Below(below - kept, kept) && limit <= |newer + kept|
    ensures IsLastN(result, newer + below, limit)
  {
    CutSuffices(result, newer, below, kept, limit);
  }

  // ---------- The rows around a one-nanosecond window ----------

  /** All rows of the range: above the window, its newest and its older ones, and below it. */
  datatype Pieces = Pieces(above: Rows, newest: Rows, older: Rows, below: Rows)

  function Window2(p: Pieces): Rows {
    p.older + p.newest
  }

  function All(p: Pieces): Rows {
    p.above + (p.below + p.older + p.newest)
  }

  /** The newest rows share the nanosecond t, the older ones the nanosecond before it. */
  ghost predicate ArePieces(p: Pieces, t: int) {
    From(p.above, t + 1) && From(p.newest, t) && Until(p.newest, t + 1) && From(p.older, t - 1) && Until(p.older, t) &&
    Until(p.below, if p.older != multiset{} then t - 1 else if p.newest != multiset{} then t else t + 1) &&
    (Window2(p) != multiset{} ==> p.newest != multiset{})
  }

  /** The newer ones among some rows. */
  lemma {:induction false} SplitRows(allNewer: Rows, allOlder: Rows, t: int, rows: Rows) returns (newer: Rows, older: Rows)
    requires From(allNewer, t) && Until(allOlder, t) && rows <= allOlder + allNewer
    ensures rows == newer + older && newer <= allNewer && older <= allOlder && |newer| >= Minus(|rows|, |allOlder|)
  {
    newer, older := rows * allNewer, rows * allOlder;
    forall r
      ensures rows[r] == newer[r] + older[r]
    {
      assert r in allNewer ==> r.timestamp >= t;
      assert r in allOlder ==> r.timestamp < t;
    }
    assert rows == newer + older;
    SizeOfPart(older, allOlder);
  }

  // ---------- Giving up when no window has hit its limit ----------

  /** n more rows are wanted; up to 2n rows of the window are returned by the last query. */
  ghost predicate FirstRunCondition(p: Pieces, n: nat, limit: nat) {
    |p.above| + |Window2(p)| >= Min(limit, |All(p)|) && (|Window2(p)| <= 2 * n || |p.older| <= n)
  }

  lemma {:induction false} FirstRunIsRight(p: Pieces, t: int, n: nat, limit: nat, rows: Rows, result: seq<LogRow>)
    requires ArePieces(p, t) && |p.above| + n == limit && n > 0 && FirstRunCondition(p, n, limit)
    requires rows <= Window2(p) && |rows| == Min(2 * n, |Window2(p)|) && IsLastN(result, p.above + rows, limit)
    ensures IsLastN(result, All(p), limit)
  {
    if |Window2(p)| <= 2 * n {
      SameSizeIsSame(rows, Window2(p));
      WholeWindowIsRight(p, t, n, limit, result);
    } else {
      var newer, older := SplitRows(p.newest, p.older, t, rows);
      EnoughNewer(p, t, n, limit, newer, older, result);
    }
  }

  lemma {:induction false} WholeWindowIsRight(p: Pieces, t: int, n: nat, limit: nat, result: seq<LogRow>)
    requires ArePieces(p, t) && |p.above| + |Window2(p)| >= Min(limit, |All(p)|) && IsLastN(result, p.above + Window2(p), limit)
    ensures IsLastN(result, All(p), limit)
  {
    if limit <= |p.above + Window2(p)| {
      WindowGoesFirst(p, t);
      StillLastN(result, p.above, Window2(p), p.below + p.older + p.newest, limit);
    } else {
      NothingBelow(p);
    }
  }

  lemma {:induction false} WindowGoesFirst(p: Pieces, t: int)
    requires ArePieces(p, t)
    ensures var below := p.below + p.older + p.newest;
            Window2(p) <= below && Below(below, p.above) && Below(below - Window2(p), Window2(p))
  {
    assert p.below + p.older + p.newest - Window2(p) == p.below;
  }

  lemma {:induction false} NothingBelow(p: Pieces)
    requires |p.above| + |Window2(p)| >= |All(p)|
    ensures All(p) == p.above + Window2(p)
  {
    assert |All(p)| == |p.above| + |p.below| + |Window2(p)|;
  }

  /** With n rows of the newest nanosecond, nothing older is returned. */
  lemma {:induction false} EnoughNewer(p: Pieces, t: int, n: nat, limit: nat, newer: Rows, older: Rows, result: seq<LogRow>)
    requires ArePieces(p, t) && |p.above| + n == limit && newer <= p.newest && older <= p.older && |newer| >= n
    requires IsLastN(result, p.above + (newer + older), limit)
    ensures IsLastN(result, All(p), limit)
  {
    assert p.above + (newer + older) == (p.above + newer) + older;
    OnlyNewer(result, p.above + newer, older, t, limit);
    StillLastNOfNewer(result, p.above + newer, older, limit);
    NewestMayBeLeftOut(p, t, newer);
    StillLastN(result, p.above, newer, p.below + p.older + p.newest, limit);
  }

  lemma {:induction false} NewestMayBeLeftOut(p: Pieces, t: int, newer: Rows)
    requires ArePieces(p, t) && newer <= p.newest
    ensures var below := p.below + p.older + p.newest;
            newer <= below && Below(below, p.above) && Below(below - newer, newer)
  {
  }

  lemma {:induction false} StillLastNOfNewer(result: seq<LogRow>, newer: Rows, older: Rows, limit: nat)
    requires IsLastN(result, newer + older, limit) && multiset(result) <= newer && |result| == limit
    ensures IsLastN(result, newer, limit)
  {
    assert |multiset(result)| == |result|;
    SizeOfPart(multiset(result), newer);
    assert newer - multiset(result) <= (newer + older) - multiset(result);
  }

  lemma {:induction false} FirstRunMayBeWrong(p: Pieces, t: int, n: nat, limit: nat) returns (rows: Rows, result: seq<LogRow>)
    requires ArePieces(p, t) && |p.above| + n == limit && n > 0 && !FirstRunCondition(p, n, limit)
    ensures rows <= Window2(p) && |rows| == Min(2 * n, |Window2(p)|) && IsLastN(result, p.above + rows, limit)
    ensures !IsLastN(result, All(p), limit)
  {
    if |p.above| + |Window2(p)| < Min(limit, |All(p)|) {
      rows := Window2(p);
      result := LastNExists(p.above + rows, limit);
    } else {
      var newer;
      rows, newer := ChooseOld(p.older, p.newest, 2 * n);
      result := LastNExists(p.above + rows, limit);
      OldRowsAreWrong(p, t, n, limit, newer, rows - newer, rows, result);
    }
  }

  lemma {:induction false} OldRowsAreWrong(p: Pieces, t: int, n: nat, limit: nat, newer: Rows, older: Rows, rows: Rows, result: seq<LogRow>)
    requires ArePieces(p, t) && |p.above| + n == limit && rows == newer + older && From(newer, t) && Until(older, t)
    requires |newer| < n <= |rows| && |newer| < |p.newest| && IsLastN(result, p.above + rows, limit)
    ensures !IsLastN(result, All(p), limit)
  {
    assert p.above + rows == (p.above + newer) + older;
    assert All(p) == (p.above + p.newest) + (p.below + p.older);
    TooFewNewer(result, p.above + newer, older, t, limit, p.above + p.newest, p.below + p.older);
  }

  // ---------- Giving up after a window has hit its limit ----------

  /** Every row is there n times. */
  ghost predicate OccursOften(m: Rows, n: nat) {
    forall r :: r in m ==> m[r] >= n
  }

  /** The rows of the last window that had hit its limit, below the one-nanosecond window: they share a nanosecond. */
  ghost predicate IsPrior(p: Pieces, prior: Rows, t: int) {
    prior <= p.below && From(prior, t) && Until(prior, t + 1) && Until(p.below - prior, t)
  }

  /** Twice the wanted rows come from the last window, and up to as many from the one-nanosecond window once more. */
  ghost predicate ResumedCondition(p: Pieces, prior: Rows, n: nat) {
    Window2(p) == multiset{} ||
    (OccursOften(p.newest, n) && Minus(2 * n, |prior + p.older|) + Minus(Min(2 * n, |Window2(p)|), |p.older|) >= n)
  }

  lemma {:induction false} ResumedIsRight(p: Pieces, prior: Rows, t: int, tp: int, n: nat, limit: nat, last: Rows, rows: Rows, result: seq<LogRow>)
    requires ArePieces(p, t) && IsPrior(p, prior, tp) && |p.above| + n == limit && n > 0 && ResumedCondition(p, prior, n)
    requires last <= prior + Window2(p) && |last| == 2 * n
    requires rows <= Window2(p) && |rows| == Min(2 * n, |Window2(p)|) && IsLastN(result, p.above + last + rows, limit)
    ensures IsLastN(result, All(p), limit)
  {
    if Window2(p) == multiset{} {
      NothingInWindow(p, prior, last, rows);
      PriorIsRight(p, prior, t, tp, limit, last, result);
    } else {
      assert prior + Window2(p) == (prior + p.older) + p.newest;
      EnoughOfNewest(p, prior, t, n, limit, last, rows, result);
    }
  }

  lemma {:induction false} NothingInWindow(p: Pieces, prior: Rows, last: Rows, rows: Rows)
    requires Window2(p) == multiset{} && rows <= Window2(p)
    ensures p.above + last + rows == p.above + last && prior + Window2(p) == prior
  {
  }

  lemma {:induction false} EnoughOfNewest(p: Pieces, prior: Rows, t: int, n: nat, limit: nat, last: Rows, rows: Rows, result: seq<LogRow>)
    requires ArePieces(p, t) && prior <= p.below && p.newest != multiset{} && |p.above| + n == limit && n > 0 && OccursOften(p.newest, n)
    requires last <= (prior + p.older) + p.newest && rows <= p.older + p.newest && IsLastN(result, p.above + last + rows, limit)
    requires Minus(|last|, |prior + p.older|) + Minus(|rows|, |p.older|) >= n
    ensures IsLastN(result, All(p), limit)
  {
    PriorIsOlder(p, prior, t);
    var lastNewer, lastOlder := SplitRows(p.newest, prior + p.older, t, last);
    var rowsNewer, rowsOlder := SplitRows(p.newest, p.older, t, rows);
    Regroup(p.above, last, lastNewer, lastOlder, rows, rowsNewer, rowsOlder);
    OftenEnough(p, t, n, limit, lastNewer + rowsNewer, lastOlder + rowsOlder, result);
  }

  lemma {:induction false} PriorIsOlder(p: Pieces, prior: Rows, t: int)
    requires ArePieces(p, t) && prior <= p.below && p.newest != multiset{}
    ensures Until(prior + p.older, t)
  {
    forall x | x in prior + p.older
      ensures x.timestamp < t
    {
      assert x in p.below || x in p.older;
    }
  }

  lemma {:induction false} PriorIsRight(p: Pieces, prior: Rows, t: int, tp: int, limit: nat, last: Rows, result: seq<LogRow>)
    requires ArePieces(p, t) && IsPrior(p, prior, tp) && Window2(p) == multiset{} && last <= prior && limit <= |p.above + last|
    requires IsLastN(result, p.above + last, limit)
    ensures IsLastN(result, All(p), limit)
  {
    forall x, y | x in p.below - last && y in last
      ensures x.timestamp <= y.timestamp
    {
      assert x in prior || x in p.below - prior;
    }
    StillLastN(result, p.above, last, p.below, limit);
    assert p.below + p.older + p.newest == p.below;
  }

  /** Rows that are there n times can be returned twice: no more than n are wanted. */
  lemma {:induction false} OftenEnough(p: Pieces, t: int, n: nat, limit: nat, newer: Rows, older: Rows, result: seq<LogRow>)
    requires ArePieces(p, t) && |p.above| + n == limit && n > 0 && |newer| >= n && OccursOften(p.newest, n)
    requires (forall r :: r in newer ==> r in p.newest) && Until(older, t)
    requires IsLastN(result, (p.above + newer) + older, limit)
    ensures IsLastN(result, All(p), limit)
  {
    assert |multiset(result)| == |result|;
    OnlyNewer(result, p.above + newer, older, t, limit);
    assert (p.above + newer) + older == p.above + (newer + older);
    AllNewer(result, p.above, newer + older, t + 1, limit);
    var taken := TakenBesides(multiset(result), p.above, newer);
    NoneTooOften(taken, p.newest, n);
    TakenFromNewest(p, t, limit, taken, result);
  }

  lemma {:induction false} TakenBesides(m: Rows, above: Rows, newer: Rows) returns (taken: Rows)
    requires above <= m <= above + newer
    ensures taken <= newer && m == above + taken && |taken| == |m| - |above|
  {
    taken := m - above;
    SizeOfPart(above, m);
  }

  lemma {:induction false} NoneTooOften(taken: Rows, all: Rows, n: nat)
    requires |taken| <= n && OccursOften(all, n) && forall r :: r in taken ==> r in all
    ensures taken <= all
  {
    forall r | r in taken
      ensures taken[r] <= all[r]
    {
      SizeOfPart(multiset{}[r := taken[r]], taken);
    }
  }

  lemma {:induction false} TakenFromNewest(p: Pieces, t: int, limit: nat, taken: Rows, result: seq<LogRow>)
    requires ArePieces(p, t) && taken <= p.newest && multiset(result) == p.above + taken && |result| == limit && Descending(result)
    ensures IsLastN(result, All(p), limit)
  {
    assert |multiset(result)| == |result|;
    assert All(p) - multiset(result) == p.below + p.older + (p.newest - taken);
    SizeOfPart(multiset(result), All(p));
  }

  /** A row of the window that is there too rarely may be returned once more. */
  lemma {:induction false} RareRowIsWrong(p: Pieces, prior: Rows, t: int, n: nat, limit: nat, r: LogRow)
      returns (last: Rows, rows: Rows, result: seq<LogRow>)
    requires ArePieces(p, t) && prior <= p.below && |p.above| + n == limit && r in p.newest && p.newest[r] < n
    requires |prior + Window2(p)| >= 2 * n
    ensures last <= prior + Window2(p) && |last| == 2 * n && rows <= Window2(p) && |rows| == Min(2 * n, |Window2(p)|)
    ensures IsLastN(result, p.above + last + rows, limit) && !IsLastN(result, All(p), limit)
  {
    var copies: Rows := multiset{}[r := p.newest[r]];
    SizeOfPart(copies, Window2(p));
    last := Choose(prior + Window2(p), copies, 2 * n);
    rows := Choose(Window2(p), copies, Min(2 * n, |Window2(p)|));
    var more: Rows := multiset{}[r := p.newest[r] + 1];
    var older := OneTooMany(p.above, last, rows, more, r, copies);
    OlderAreBelow(p, prior, t, older, more, r);
    result := LastNOfParts(p.above + more, older, limit);
    assert multiset(result)[r] >= p.newest[r] + 1;
    OnlyNewest(p, t, r);
  }

  lemma {:induction false} OnlyNewest(p: Pieces, t: int, r: LogRow)
    requires ArePieces(p, t) && r in p.newest
    ensures All(p)[r] == p.newest[r]
  {
    assert r !in p.above && r !in p.older && r !in p.below;
  }

  lemma {:induction false} OneTooMany(above: Rows, last: Rows, rows: Rows, more: Rows, r: LogRow, copies: Rows) returns (older: Rows)
    requires copies <= last && copies <= rows && copies[r] > 0 && more == multiset{}[r := copies[r] + 1]
    ensures above + last + rows == (above + more) + older && forall x :: x in older ==> x in last || x in rows
  {
    assert more <= last + rows;
    older := last + rows - more;
  }

  lemma {:induction false} OlderAreBelow(p: Pieces, prior: Rows, t: int, older: Rows, more: Rows, r: LogRow)
    requires ArePieces(p, t) && prior <= p.below && r in p.newest
    requires (forall x :: x in older ==> x in prior + Window2(p)) && (forall y :: y in more ==> y == r)
    ensures Below(older, p.above + more)
  {
    forall x, y | x in older && y in p.above + more
      ensures x.timestamp <= y.timestamp
    {
      assert x in prior + Window2(p);
      assert x in p.below || x in p.older || x in p.newest;
    }
  }

  lemma {:induction false} OlderRowsAreWrong(p: Pieces, prior: Rows, t: int, n: nat, limit: nat)
      returns (last: Rows, rows: Rows, result: seq<LogRow>)
    requires ArePieces(p, t) && prior <= p.below && |p.above| + n == limit && OccursOften(p.newest, n) && p.newest != multiset{}
    requires |prior + Window2(p)| >= 2 * n && Minus(2 * n, |prior + p.older|) + Minus(Min(2 * n, |Window2(p)|), |p.older|) < n
    ensures last <= prior + Window2(p) && |last| == 2 * n && rows <= Window2(p) && |rows| == Min(2 * n, |Window2(p)|)
    ensures IsLastN(result, p.above + last + rows, limit) && !IsLastN(result, All(p), limit)
  {
    var lastNewer, rowsNewer;
    assert prior + Window2(p) == (prior + p.older) + p.newest;
    last, lastNewer := ChooseOld(prior + p.older, p.newest, 2 * n);
    rows, rowsNewer := ChooseOld(p.older, p.newest, Min(2 * n, |Window2(p)|));
    result := LastNExists(p.above + last + rows, limit);
    Regroup(p.above, last, lastNewer, last - lastNewer, rows, rowsNewer, rows - rowsNewer);
    TooOldRowsAreWrong(p, prior, t, n, limit, lastNewer, last - lastNewer, rowsNewer, rows - rowsNewer, result);
  }

  lemma {:induction false} TooOldRowsAreWrong(p: Pieces, prior: Rows, t: int, n: nat, limit: nat, lastNewer: Rows, lastOlder: Rows,
                                              rowsNewer: Rows, rowsOlder: Rows, result: seq<LogRow>)
    requires ArePieces(p, t) && prior <= p.below && |p.above| + n == limit && OccursOften(p.newest, n) && p.newest != multiset{}
    requires lastNewer <= p.newest && rowsNewer <= p.newest && lastOlder <= prior + p.older && rowsOlder <= p.older
    requires |lastNewer + rowsNewer| < n <= |(lastNewer + rowsNewer) + (lastOlder + rowsOlder)|
    requires IsLastN(result, p.above + ((lastNewer + rowsNewer) + (lastOlder + rowsOlder)), limit)
    ensures !IsLastN(result, All(p), limit)
  {
    OftenMeansMany(p.newest, n);
    PriorIsOlder(p, prior, t);
    assert Until(lastOlder + rowsOlder, t);
    OldRowsAreWrong(p, t, n, limit, lastNewer + rowsNewer, lastOlder + rowsOlder, (lastNewer + rowsNewer) + (lastOlder + rowsOlder), result);
  }

  lemma {:induction false} OftenMeansMany(m: Rows, n: nat)
    requires OccursOften(m, n) && m != multiset{}
    ensures |m| >= n
  {
    var r :| r in m;
    SizeOfPart(multiset{}[r := m[r]], m);
  }

  /** A row that has been found already is returned once more. */
  lemma {:induction false} FoundRowIsWrong(p: Pieces, t: int, limit: nat, dups: Rows, rest: Rows, result: seq<LogRow>)
    requires ArePieces(p, t) && |p.above| < limit && dups != multiset{} && From(dups, t + 1) && Until(rest, t + 1)
    requires IsLastN(result, (p.above + dups) + rest, limit)
    ensures !IsLastN(result, All(p), limit)
  {
    var m, newer := multiset(result), p.above + dups;
    assert |m| == |result|;
    if |newer| >= limit {
      OnlyNewer(result, newer, rest, t + 1, limit);
      if m <= All(p) {
        NewRowsAreAbove(p, t, m);
        SizeOfPart(m, p.above);
      }
    } else {
      AllNewer(result, newer, rest, t + 1, limit);
      if m <= All(p) {
        NewRowsAreAbove(p, t, newer);
        SizeOfPart(newer, p.above);
      }
    }
  }

  lemma {:induction false} SecondRowIsWrong(p: Pieces, prior: Rows, found: Rows, t: int, limit: nat,
                                            last: Rows, rows: Rows, x: LogRow, result: seq<LogRow>)
    requires ArePieces(p, t) && |p.above| < limit && From(found, t + 1) && Until(prior + Window2(p), t + 1)
    requires x in last && x in found && last <= (prior + Window2(p)) + found && rows <= Window2(p)
    requires IsLastN(result, p.above + last + rows, limit)
    ensures !IsLastN(result, All(p), limit)
  {
    var dups, older := SplitRows(found, prior + Window2(p), t + 1, last);
    Regroup(p.above, last, dups, older, rows, multiset{}, rows);
    OlderUntil(prior, Window2(p), older, rows, t + 1);
    FoundRowIsWrong(p, t, limit, dups + multiset{}, older + rows, result);
  }

  lemma {:induction false} OlderUntil(prior: Rows, window: Rows, older: Rows, rows: Rows, t: int)
    requires Until(prior + window, t) && older <= prior + window && rows <= window
    ensures Until(older + rows, t)
  {
    forall r | r in older + rows
      ensures r in prior + window
    {
    }
  }

  lemma {:induction false} NewRowsAreAbove(p: Pieces, t: int, m: Rows)
    requires ArePieces(p, t) && m <= All(p) && From(m, t + 1)
    ensures m <= p.above
  {
    forall r
      ensures m[r] <= p.above[r]
    {
      if r in m {
        assert r !in p.newest && r !in p.older && r !in p.below;
      }
    }
  }

  // ---------- The exact condition ----------

  /** Where the newest nanosecond of the window starts. */
  ghost function Cut(db: seq<LogRow>, exit: Exit): int
    requires exit.OneNanosecond?
  {
    if exit.start < exit.end && Count(db, exit.end - 1, exit.end) > 0 then exit.end - 1 else exit.start
  }

  ghost function NewestTime(db: seq<LogRow>, exit: Exit): int
    requires exit.OneNanosecond?
  {
    if exit.start < exit.end then Cut(db, exit) else exit.end - 1
  }

  ghost function PiecesOf(db: seq<LogRow>, bottom: int, top: int, exit: Exit): Pieces
    requires exit.OneNanosecond?
  {
    Pieces(RowsIn(db, exit.end, top), RowsIn(db, Cut(db, exit), exit.end), RowsIn(db, exit.start, Cut(db, exit)), RowsIn(db, bottom, exit.start))
  }

  /** Whatever the storage returns for the queries, and in whatever order equal timestamps are put, the result is right. */
  ghost predicate AlwaysRight(db: seq<LogRow>, bottom: int, top: int, limit: nat, exit: Exit) {
    forall last, rows, result :: IsOneNanosecondResult(db, top, limit, exit, last, rows, result) ==> IsLastN(result, RowsIn(db, bottom, top), limit)
  }

  /** n rows are wanted of the window. If no window has hit its limit, there must be enough rows from the window's start on,
      and a window of two nanoseconds (it starts at -1) must not hold more rows than the last query asks for, or no more than n
      older ones. Otherwise nothing may have been found since some window hit its limit, and the window must be empty,
      or hold each of its newest rows n times and give n of them. */
  ghost predicate GivingUpIsRight(db: seq<LogRow>, bottom: int, top: int, limit: nat, exit: Exit)
    requires GivesUp(db, bottom, top, limit, exit)
  {
    limit == 0 ||
    var n, cut := limit - Count(db, exit.end, top), Cut(db, exit);
    var window, older := Count(db, exit.start, exit.end), Count(db, exit.start, cut);
    match exit.last
    case NoWindow =>
      Count(db, exit.start, top) >= Min(limit, Count(db, bottom, top)) && (window <= 2 * n || older <= n)
    case Window(start, end) =>
      Count(db, exit.end, end) == 0 &&
      (window == 0 ||
       (OccursOften(RowsIn(db, cut, exit.end), n) && Minus(2 * n, Count(db, start, cut)) + Minus(Min(2 * n, window), older) >= n))
  }

  lemma {:induction false} RowsAreIn(db: seq<LogRow>, lo: int, hi: int)
    ensures From(RowsIn(db, lo, hi), lo) && Until(RowsIn(db, lo, hi), hi) && |RowsIn(db, lo, hi)| == Count(db, lo, hi)
  {
    CountIsSize(db, lo, hi);
    forall r | r in RowsIn(db, lo, hi)
      ensures lo <= r.timestamp < hi
    {
      RowsInRange(db, lo, hi, r);
    }
  }

  lemma {:induction false} NewestShareTime(db: seq<LogRow>, exit: Exit)
    requires exit.OneNanosecond? && exit.start <= exit.end <= exit.start + 2
    ensures exit.start <= Cut(db, exit) <= exit.end
    ensures var newest, t := RowsIn(db, Cut(db, exit), exit.end), NewestTime(db, exit);
            From(newest, t) && Until(newest, t + 1) && (Count(db, exit.start, exit.end) > 0 ==> newest != multiset{})
  {
    var cut := Cut(db, exit);
    RowsAreIn(db, cut, exit.end);
    EmptyRange(db, exit.end);
    if exit.start < exit.end {
      RowsInSplit(db, exit.start, exit.end - 1, exit.end);
      RowsAreIn(db, exit.end - 1, exit.end);
      RowsAreIn(db, exit.start, exit.end - 1);
    }
    CountIsSize(db, exit.start, exit.end);
  }

  lemma {:induction false} WindowIsNarrow(db: seq<LogRow>, bottom: int, top: int, limit: nat, exit: Exit)
    requires GivesUp(db, bottom, top, limit, exit)
    ensures exit.end <= exit.start + 2
    ensures exit.last.Window? ==> exit.start <= exit.last.start + 1
  {
  }

  lemma {:induction false} PiecesAreAll(db: seq<LogRow>, bottom: int, top: int, limit: nat, exit: Exit)
    requires GivesUp(db, bottom, top, limit, exit)
    ensures var p := PiecesOf(db, bottom, top, exit);
            ArePieces(p, NewestTime(db, exit)) && All(p) == RowsIn(db, bottom, top) && Window2(p) == RowsIn(db, exit.start, exit.end)
  {
    WindowIsNarrow(db, bottom, top, limit, exit);
    NewestShareTime(db, exit);
    PiecesAreInOrder(db, bottom, top, exit);
    RowsInSplit(db, bottom, exit.start, top);
    RowsInSplit(db, exit.start, exit.end, top);
    RowsInSplit(db, exit.start, Cut(db, exit), exit.end);
  }

  lemma {:induction false} PiecesAreInOrder(db: seq<LogRow>, bottom: int, top: int, exit: Exit)
    requires exit.OneNanosecond? && bottom <= exit.start <= exit.end <= top && exit.end <= exit.start + 2
    ensures ArePieces(PiecesOf(db, bottom, top, exit), NewestTime(db, exit))
  {
    var cut := Cut(db, exit);
    NewestShareTime(db, exit);
    RowsAreIn(db, exit.end, top);
    RowsAreIn(db, exit.start, cut);
    RowsAreIn(db, bottom, exit.start);
    EmptyRange(db, exit.start);
    WindowHasNewest(db, exit);
    AreInOrder(PiecesOf(db, bottom, top, exit), exit.start, cut, exit.end, NewestTime(db, exit));
  }

  lemma {:induction false} WindowHasNewest(db: seq<LogRow>, exit: Exit)
    requires exit.OneNanosecond? && exit.start <= exit.end <= exit.start + 2
    ensures var cut := Cut(db, exit);
            var newest := RowsIn(db, cut, exit.end);
            RowsIn(db, exit.start, cut) + newest != multiset{} ==> newest != multiset{}
  {
    NewestShareTime(db, exit);
    RowsInSplit(db, exit.start, Cut(db, exit), exit.end);
    CountIsSize(db, exit.start, exit.end);
  }

  lemma {:induction false} AreInOrder(p: Pieces, start: int, cut: int, end: int, t: int)
    requires start <= cut <= end <= start + 2 && t == (if start < end then cut else end - 1) && (cut == end ==> start == end)
    requires From(p.above, end) && From(p.newest, t) && Until(p.newest, t + 1) && From(p.older, start) && Until(p.older, cut) && Until(p.below, start)
    requires (p.older + p.newest != multiset{} ==> p.newest != multiset{}) && (start == cut ==> p.older == multiset{}) && (start == end ==> p.newest == multiset{})
    ensures ArePieces(p, t)
  {
  }

  lemma {:induction false} CountsOfPieces(db: seq<LogRow>, bottom: int, top: int, exit: Exit)
    requires exit.OneNanosecond? && bottom <= exit.start <= exit.end <= top
    ensures var p, cut := PiecesOf(db, bottom, top, exit), Cut(db, exit);
            |p.above| == Count(db, exit.end, top) && |p.newest| == Count(db, cut, exit.end) && |p.older| == Count(db, exit.start, cut)
    ensures Count(db, exit.start, top) == Count(db, exit.start, exit.end) + Count(db, exit.end, top)
  {
    CountIsSize(db, exit.end, top);
    CountIsSize(db, Cut(db, exit), exit.end);
    CountIsSize(db, exit.start, Cut(db, exit));
    CountSplit(db, exit.start, exit.end, top);
  }

  lemma {:induction false} NothingWantedIsRight(result: seq<LogRow>, pool: Rows, all: Rows)
    requires IsLastN(result, pool, 0)
    ensures IsLastN(result, all, 0)
  {
    assert result == [];
  }

  lemma {:induction false} FirstRunExactly(db: seq<LogRow>, bottom: int, top: int, limit: nat, exit: Exit)
    requires GivesUp(db, bottom, top, limit, exit) && exit.last.NoWindow? && limit > 0
    ensures AlwaysRight(db, bottom, top, limit, exit) <==> GivingUpIsRight(db, bottom, top, limit, exit)
  {
    var p, t, n := PiecesOf(db, bottom, top, exit), NewestTime(db, exit), limit - Count(db, exit.end, top);
    FirstRunPieces(db, bottom, top, limit, exit, p, n);
    if GivingUpIsRight(db, bottom, top, limit, exit) {
      forall last, rows, result | IsOneNanosecondResult(db, top, limit, exit, last, rows, result)
        ensures IsLastN(result, RowsIn(db, bottom, top), limit)
      {
        FirstRunResultIsRight(db, bottom, top, limit, exit, last, rows, result);
      }
    } else {
      var rows, result := FirstRunMayBeWrong(p, t, n, limit);
      assert p.above + multiset{} + rows == p.above + rows;
      assert IsOneNanosecondResult(db, top, limit, exit, multiset{}, rows, result);
    }
  }

  lemma {:induction false} FirstRunResultIsRight(db: seq<LogRow>, bottom: int, top: int, limit: nat, exit: Exit,
                                                 last: Rows, rows: Rows, result: seq<LogRow>)
    requires GivesUp(db, bottom, top, limit, exit) && exit.last.NoWindow? && limit > 0 && GivingUpIsRight(db, bottom, top, limit, exit)
    requires IsOneNanosecondResult(db, top, limit, exit, last, rows, result)
    ensures IsLastN(result, RowsIn(db, bottom, top), limit)
  {
    var p, n := PiecesOf(db, bottom, top, exit), limit - Count(db, exit.end, top);
    FirstRunPieces(db, bottom, top, limit, exit, p, n);
    assert p.above + last + rows == p.above + rows;
    FirstRunIsRight(p, NewestTime(db, exit), n, limit, rows, result);
  }

  lemma {:induction false} FirstRunPieces(db: seq<LogRow>, bottom: int, top: int, limit: nat, exit: Exit, p: Pieces, n: nat)
    requires GivesUp(db, bottom, top, limit, exit) && exit.last.NoWindow? && limit > 0
    requires p == PiecesOf(db, bottom, top, exit) && n == limit - Count(db, exit.end, top)
    ensures ArePieces(p, NewestTime(db, exit)) && All(p) == RowsIn(db, bottom, top) && Window2(p) == RowsIn(db, exit.start, exit.end)
    ensures |p.above| + n == limit && n > 0 && |Window2(p)| == Count(db, exit.start, exit.end)
    ensures FirstRunCondition(p, n, limit) <==> GivingUpIsRight(db, bottom, top, limit, exit)
  {
    PiecesAreAll(db, bottom, top, limit, exit);
    CountsOfPieces(db, bottom, top, exit);
    CountIsSize(db, bottom, top);
    CountIsSize(db, exit.start, exit.end);
  }

  /** The rows of the last window that had hit its limit, cut at the one-nanosecond window. */
  lemma {:induction false} LastWindowIsCut(db: seq<LogRow>, bottom: int, top: int, limit: nat, exit: Exit, prior: Rows)
    requires GivesUp(db, bottom, top, limit, exit) && exit.last.Window? && prior == RowsIn(db, exit.last.start, exit.start)
    ensures IsPrior(PiecesOf(db, bottom, top, exit), prior, exit.last.start)
    ensures RowsIn(db, exit.last.start, exit.last.end) == (prior + RowsIn(db, exit.start, exit.end)) + RowsIn(db, exit.end, exit.last.end)
  {
    var start, end := exit.last.start, exit.last.end;
    WindowIsNarrow(db, bottom, top, limit, exit);
    RowsInSplit(db, bottom, start, exit.start);
    RowsAreIn(db, bottom, start);
    RowsAreIn(db, start, exit.start);
    assert RowsIn(db, bottom, exit.start) - prior == RowsIn(db, bottom, start);
    RowsInSplit(db, start, exit.start, end);
    RowsInSplit(db, exit.start, exit.end, end);
  }

  lemma {:induction false} CountsOfLastWindow(db: seq<LogRow>, bottom: int, top: int, limit: nat, exit: Exit, prior: Rows)
    requires GivesUp(db, bottom, top, limit, exit) && exit.last.Window? && prior == RowsIn(db, exit.last.start, exit.start)
    requires Count(db, exit.end, exit.last.end) == 0
    ensures var p, n := PiecesOf(db, bottom, top, exit), limit - Count(db, exit.end, top);
            && Count(db, exit.end, top) == Count(db, exit.last.end, top)
            && |prior + p.older| == Count(db, exit.last.start, Cut(db, exit))
            && |prior + RowsIn(db, exit.start, exit.end)| == Count(db, exit.last.start, exit.last.end) >= 2 * n
            && RowsIn(db, exit.last.start, exit.last.end) == prior + RowsIn(db, exit.start, exit.end)
  {
    var start, end, cut := exit.last.start, exit.last.end, Cut(db, exit);
    LastWindowIsCut(db, bottom, top, limit, exit, prior);
    CountIsSize(db, exit.end, end);
    CountIsSize(db, start, end);
    CountSplit(db, exit.end, end, top);
    RowsInSplit(db, start, exit.start, cut);
    CountIsSize(db, start, cut);
  }

  /** A row may be found a second time in the last window. */
  lemma {:induction false} FoundTwiceIsWrong(db: seq<LogRow>, bottom: int, top: int, limit: nat, exit: Exit)
    requires GivesUp(db, bottom, top, limit, exit) && exit.last.Window? && limit > 0 && Count(db, exit.end, exit.last.end) > 0
    ensures !AlwaysRight(db, bottom, top, limit, exit)
  {
    var prior, above := RowsIn(db, exit.last.start, exit.start), RowsIn(db, exit.end, exit.last.end);
    var window, n := RowsIn(db, exit.start, exit.end), limit - Count(db, exit.last.end, top);
    LastWindowIsCut(db, bottom, top, limit, exit, prior);
    CountIsSize(db, exit.end, exit.last.end);
    CountIsSize(db, exit.last.start, exit.last.end);
    CountIsSize(db, exit.start, exit.end);
    var x :| x in above;
    var last := Choose((prior + window) + above, multiset{x}, 2 * n);
    var rows := Choose(window, multiset{}, Min(2 * (limit - Count(db, exit.end, top)), |window|));
    var result := LastNExists(RowsIn(db, exit.end, top) + last + rows, limit);
    assert IsOneNanosecondResult(db, top, limit, exit, last, rows, result);
    TwiceFoundRows(db, bottom, top, limit, exit, prior, last, rows, x, result);
  }

  lemma {:induction false} TwiceFoundRows(db: seq<LogRow>, bottom: int, top: int, limit: nat, exit: Exit, prior: Rows,
                                          last: Rows, rows: Rows, x: LogRow, result: seq<LogRow>)
    requires GivesUp(db, bottom, top, limit, exit) && exit.last.Window? && limit > 0 && prior == RowsIn(db, exit.last.start, exit.start)
    requires x in last && x in RowsIn(db, exit.end, exit.last.end)
    requires last <= (prior + RowsIn(db, exit.start, exit.end)) + RowsIn(db, exit.end, exit.last.end) && rows <= RowsIn(db, exit.start, exit.end)
    requires IsLastN(result, RowsIn(db, exit.end, top) + last + rows, limit)
    ensures !IsLastN(result, RowsIn(db, bottom, top), limit)
  {
    var p, t, above := PiecesOf(db, bottom, top, exit), NewestTime(db, exit), RowsIn(db, exit.end, exit.last.end);
    PiecesAreAll(db, bottom, top, limit, exit);
    CountsOfPieces(db, bottom, top, exit);
    NewestShareTime(db, exit);
    UntilNewest(db, bottom, top, limit, exit, prior);
    RowsAreIn(db, exit.end, exit.last.end);
    SecondRowIsWrong(p, prior, above, t, limit, last, rows, x, result);
  }

  lemma {:induction false} UntilNewest(db: seq<LogRow>, bottom: int, top: int, limit: nat, exit: Exit, prior: Rows)
    requires GivesUp(db, bottom, top, limit, exit) && exit.last.Window? && prior == RowsIn(db, exit.last.start, exit.start)
    ensures NewestTime(db, exit) < exit.end && Until(prior + RowsIn(db, exit.start, exit.end), NewestTime(db, exit) + 1)
  {
    WindowIsNarrow(db, bottom, top, limit, exit);
    PiecesAreAll(db, bottom, top, limit, exit);
    NewestShareTime(db, exit);
    RowsAreIn(db, exit.last.start, exit.start);
    var p := PiecesOf(db, bottom, top, exit);
    assert RowsIn(db, exit.start, exit.end) == p.older + p.newest;
  }

  lemma {:induction false} ResumedExactly(db: seq<LogRow>, bottom: int, top: int, limit: nat, exit: Exit)
    requires GivesUp(db, bottom, top, limit, exit) && exit.last.Window? && limit > 0
    ensures AlwaysRight(db, bottom, top, limit, exit) <==> GivingUpIsRight(db, bottom, top, limit, exit)
  {
    if Count(db, exit.end, exit.last.end) > 0 {
      FoundTwiceIsWrong(db, bottom, top, limit, exit);
    } else if GivingUpIsRight(db, bottom, top, limit, exit) {
      forall last, rows, result | IsOneNanosecondResult(db, top, limit, exit, last, rows, result)
        ensures IsLastN(result, RowsIn(db, bottom, top), limit)
      {
        ResumedResultIsRight(db, bottom, top, limit, exit, last, rows, result);
      }
    } else {
      ResumedMayBeWrong(db, bottom, top, limit, exit);
    }
  }

  lemma {:induction false} ResumedResultIsRight(db: seq<LogRow>, bottom: int, top: int, limit: nat, exit: Exit,
                                                last: Rows, rows: Rows, result: seq<LogRow>)
    requires GivesUp(db, bottom, top, limit, exit) && exit.last.Window? && limit > 0 && GivingUpIsRight(db, bottom, top, limit, exit)
    requires IsOneNanosecondResult(db, top, limit, exit, last, rows, result)
    ensures IsLastN(result, RowsIn(db, bottom, top), limit)
  {
    var p, prior, t, n := PiecesOf(db, bottom, top, exit), RowsIn(db, exit.last.start, exit.start), NewestTime(db, exit), limit - Count(db, exit.end, top);
    ResumedPieces(db, bottom, top, limit, exit, p, prior, n);
    ResumedIsRight(p, prior, t, exit.last.start, n, limit, last, rows, result);
  }

  lemma {:induction false} ResumedPieces(db: seq<LogRow>, bottom: int, top: int, limit: nat, exit: Exit, p: Pieces, prior: Rows, n: nat)
    requires GivesUp(db, bottom, top, limit, exit) && exit.last.Window? && limit > 0 && Count(db, exit.end, exit.last.end) == 0
    requires p == PiecesOf(db, bottom, top, exit) && prior == RowsIn(db, exit.last.start, exit.start) && n == limit - Count(db, exit.end, top)
    ensures ArePieces(p, NewestTime(db, exit)) && All(p) == RowsIn(db, bottom, top) && Window2(p) == RowsIn(db, exit.start, exit.end)
    ensures IsPrior(p, prior, exit.last.start) && RowsIn(db, exit.last.start, exit.last.end) == prior + Window2(p)
    ensures |p.above| + n == limit && n > 0 && |Window2(p)| == Count(db, exit.start, exit.end) && |prior + Window2(p)| >= 2 * n
    ensures Count(db, exit.end, top) == Count(db, exit.last.end, top)
    ensures ResumedCondition(p, prior, n) <==> GivingUpIsRight(db, bottom, top, limit, exit)
  {
    PiecesAreAll(db, bottom, top, limit, exit);
    CountsOfPieces(db, bottom, top, exit);
    LastWindowIsCut(db, bottom, top, limit, exit, prior);
    CountsOfLastWindow(db, bottom, top, limit, exit, prior);
    CountIsSize(db, exit.start, exit.end);
    ConditionsAgree(db, bottom, top, limit, exit, p, prior, n);
  }

  lemma {:induction false} ConditionsAgree(db: seq<LogRow>, bottom: int, top: int, limit: nat, exit: Exit, p: Pieces, prior: Rows, n: nat)
    requires GivesUp(db, bottom, top, limit, exit) && exit.last.Window? && limit > 0 && Count(db, exit.end, exit.last.end) == 0
    requires n == limit - Count(db, exit.end, top) && p.newest == RowsIn(db, Cut(db, exit), exit.end)
    requires |Window2(p)| == Count(db, exit.start, exit.end) && |p.older| == Count(db, exit.start, Cut(db, exit))
    requires |prior + p.older| == Count(db, exit.last.start, Cut(db, exit))
    ensures ResumedCondition(p, prior, n) <==> GivingUpIsRight(db, bottom, top, limit, exit)
  {
  }

  lemma {:induction false} ResumedMayBeWrong(db: seq<LogRow>, bottom: int, top: int, limit: nat, exit: Exit)
    requires GivesUp(db, bottom, top, limit, exit) && exit.last.Window? && limit > 0
    requires Count(db, exit.end, exit.last.end) == 0 && !GivingUpIsRight(db, bottom, top, limit, exit)
    ensures !AlwaysRight(db, bottom, top, limit, exit)
  {
    var p, prior, t, n := PiecesOf(db, bottom, top, exit), RowsIn(db, exit.last.start, exit.start), NewestTime(db, exit), limit - Count(db, exit.end, top);
    ResumedPieces(db, bottom, top, limit, exit, p, prior, n);
    var last, rows, result;
    if OccursOften(p.newest, n) {
      last, rows, result := OlderRowsAreWrong(p, prior, t, n, limit);
    } else {
      var r :| r in p.newest && p.newest[r] < n;
      last, rows, result := RareRowIsWrong(p, prior, t, n, limit, r);
    }
    assert IsOneNanosecondResult(db, top, limit, exit, last, rows, result);
  }

  /** When the search gives up, its result is right whatever the storage returns if and only if the counts say so. */
  lemma {:induction false} RightExactlyWhen(db: seq<LogRow>, bottom: int, top: int, limit: nat)
    requires MIN_INT64 <= bottom <= top <= MAX_INT64 && SlowPathExit(db, bottom, top, limit).OneNanosecond?
    ensures var exit := SlowPathExit(db, bottom, top, limit);
            GivesUp(db, bottom, top, limit, exit) &&
            (AlwaysRight(db, bottom, top, limit, exit) <==> GivingUpIsRight(db, bottom, top, limit, exit))
  {
    var exit := SlowPathExit(db, bottom, top, limit);
    SlowPathGivesUp(db, bottom, top, limit);
    if limit == 0 {
      forall last, rows, result | IsOneNanosecondResult(db, top, limit, exit, last, rows, result)
        ensures IsLastN(result, RowsIn(db, bottom, top), limit)
      {
        NothingWantedIsRight(result, RowsIn(db, exit.end, top) + last + rows, RowsIn(db, bottom, top));
      }
    } else if exit.last.NoWindow? {
      FirstRunExactly(db, bottom, top, limit, exit);
    } else {
      ResumedExactly(db, bottom, top, limit, exit);
    }
  }

  /** Without rows above it, an even start of the halved range is probed last. */
  lemma {:induction false} EvenStartIsProbedLast(db: seq<LogRow>, lo: int, start: int, end: int, n: nat, last: Window)
    requires UpperHalf(lo, start, end) && lo % 2 == 0 && 0 <= lo < start && n > 0 && Count(db, lo + 1, end) == 0
    ensures SearchExit(db, start, end, n, last) == OneNanosecond(lo, lo + 1, last)
    decreases end - start, Half(end) - Half(start)
  {
    var d := Half(end) - Half(start);
    CountSplit(db, lo + 1, start, end);
    WindowSlides(lo, start, end, d);
    SearchExitSlides(db, start, end, n, last, start - d, n);
    if start - d > lo {
      EvenStartIsProbedLast(db, lo, start - d, start, n, last);
    }
  }

  /** A family of inputs with repeated rows: at least 2*limit rows share the even nanosecond in the middle of the range, and no
      row is newer. They are returned for the first window and again for the last one. */
  lemma {:induction false} MiddleRowsComeTwice(db: seq<LogRow>, bottom: int, top: int, limit: nat, middle: int, r: LogRow)
    requires 0 <= bottom <= top <= MAX_INT64 && middle == bottom + (Half(top) - Half(bottom)) && middle % 2 == 0
    requires Half(top) - Half(middle) > NSECS_PER_SECOND
    requires Count(db, middle, top) >= 2 * limit && Count(db, middle + 1, top) == 0
    requires 0 < RowsIn(db, middle, middle + 1)[r] < limit
    ensures var exit := SlowPathExit(db, bottom, top, limit);
            exit == OneNanosecond(middle, middle + 1, Window(middle, top)) && !AlwaysRight(db, bottom, top, limit, exit)
  {
    var exit, d := SlowPathExit(db, bottom, top, limit), Half(top) - Half(middle);
    SearchExitHalves(db, middle, top, limit, NoWindow, middle + d);
    EvenStartIsProbedLast(db, middle, middle + d, top, limit, Window(middle, top));
    RightExactlyWhen(db, bottom, top, limit);
    CountSplit(db, middle, middle + 1, top);
    assert Cut(db, exit) == middle;
    assert r in RowsIn(db, middle, middle + 1);
  }

  // ---------- The last nanosecond of the whole time range ----------

  lemma {:induction false} ResultIsBelowTop(db: seq<LogRow>, bottom: int, top: int, limit: nat, exit: Exit,
                                            last: Rows, rows: Rows, result: seq<LogRow>)
    requires MIN_INT64 <= bottom <= top <= MAX_INT64 && exit == SlowPathExit(db, bottom, top, limit)
    requires IsLastN(result, RowsIn(db, bottom, top), limit) || IsOneNanosecondResult(db, top, limit, exit, last, rows, result)
    ensures Until(multiset(result), top)
  {
    if IsLastN(result, RowsIn(db, bottom, top), limit) {
      RowsAreIn(db, bottom, top);
    } else {
      SlowPathGivesUp(db, bottom, top, limit);
      RowsAreIn(db, exit.end, top);
      RowsAreIn(db, exit.start, exit.end);
      if exit.last.Window? {
        RowsAreIn(db, exit.last.start, exit.last.end);
      }
      assert Until(RowsIn(db, exit.end, top) + last + rows, top);
    }
  }

  /** A query up to MAX_INT64 includes that nanosecond, but the slow path ends before it: its result is right
      if and only if it is so without that nanosecond and no row has that timestamp. */
  lemma {:induction false} LastNanosecondIsMissed(db: seq<LogRow>, bottom: int, limit: nat, exit: Exit,
                                                  last: Rows, rows: Rows, result: seq<LogRow>)
    requires MIN_INT64 <= bottom <= MAX_INT64 && limit > 0
    requires ExclusiveEnd(MAX_INT64) == MAX_INT64 && exit == SlowPathExit(db, bottom, MAX_INT64, limit)
    requires IsLastN(result, RowsIn(db, bottom, MAX_INT64), limit) || IsOneNanosecondResult(db, MAX_INT64, limit, exit, last, rows, result)
    ensures IsLastN(result, RowsIn(db, bottom, MAX_INT64 + 1), limit) <==>
            IsLastN(result, RowsIn(db, bottom, MAX_INT64), limit) && Count(db, MAX_INT64, MAX_INT64 + 1) == 0
  {
    ResultIsBelowTop(db, bottom, MAX_INT64, limit, exit, last, rows, result);
    RowsInSplit(db, bottom, MAX_INT64, MAX_INT64 + 1);
    RowsAreIn(db, MAX_INT64, MAX_INT64 + 1);
    NewestRowsAreReturned(result, RowsIn(db, MAX_INT64, MAX_INT64 + 1), RowsIn(db, bottom, MAX_INT64), limit);
  }

  lemma {:induction false} NewestRowsAreReturned(result: seq<LogRow>, newest: Rows, others: Rows, limit: nat)
    requires limit > 0 && From(newest, MAX_INT64) && Until(multiset(result), MAX_INT64)
    ensures IsLastN(result, others + newest, limit) ==> |newest| == 0
  {
    if |result| == Min(limit, |others + newest|) && |newest| > 0 {
      var x :| x in newest;
      assert result[0] in multiset(result);
      assert x in (others + newest) - multiset(result);
    }
  }

  /** Two rows, the newer one in the last nanosecond: whatever the slow path returns for one row is wrong. */
  lemma {:induction false} NewestRowIsMissed(exit: Exit, last: Rows, rows: Rows, result: seq<LogRow>)
    ensures var db := [LogRow(0, []), LogRow(MAX_INT64, [])];
            && Count(db, 0, MAX_INT64 + 1) == 2
            && (exit == SlowPathExit(db, 0, MAX_INT64, 1) &&
                (IsLastN(result, RowsIn(db, 0, MAX_INT64), 1) || IsOneNanosecondResult(db, MAX_INT64, 1, exit, last, rows, result)) ==>
                  !IsLastN(result, RowsIn(db, 0, MAX_INT64 + 1), 1))
  {
    var db := [LogRow(0, []), LogRow(MAX_INT64, [])];
    var newer := [LogRow(MAX_INT64, [])];
    assert db[1..] == newer && newer[1..] == [];
    assert Count(newer, 0, MAX_INT64 + 1) == 1 && Count(newer, MAX_INT64, MAX_INT64 + 1) == 1;
    assert Count(db, MAX_INT64, MAX_INT64 + 1) == 1;
    if exit == SlowPathExit(db, 0, MAX_INT64, 1) &&
       (IsLastN(result, RowsIn(db, 0, MAX_INT64), 1) || IsOneNanosecondResult(db, MAX_INT64, 1, exit, last, rows, result)) {
      LastNanosecondIsMissed(db, 0, 1, exit, last, rows, result);
    }
  }
}
