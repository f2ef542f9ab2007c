/** Choosing which parts to merge next. */
module PartSelection {
  import opened Sorting

  const DEFAULT_PARTS_TO_MERGE: nat := 15

  /** A part as the selection sees it. */
  datatype PartHeader = PartHeader(id: nat, compressedSizeBytes: nat, minTimestamp: int)

  type Parts = seq<PartHeader>

  function GetCompressedSize(pws: Parts): nat {
    if pws == [] then 0 else GetCompressedSize(pws[..|pws| - 1]) + pws[|pws| - 1].compressedSizeBytes
  }

  method SumCompressedSize(pws: Parts) returns (n: nat)
    ensures n == GetCompressedSize(pws)
  {
    n := 0;
    for i := 0 to |pws|
      invariant n == GetCompressedSize(pws[..i])
    {
      assert pws[..i + 1][..i] == pws[..i];
      n := n + pws[i].compressedSizeBytes;
    }
    assert pws[..|pws|] == pws;
  }

  ghost predicate PositiveSizes(pws: Parts) {
    forall i :: 0 <= i < |pws| ==> pws[i].compressedSizeBytes > 0
  }

  /** By size; parts of equal size by time, the newest first. */
  predicate PartLeq(a: PartHeader, b: PartHeader) {
    if a.compressedSizeBytes == b.compressedSizeBytes then a.minTimestamp >= b.minTimestamp
    else a.compressedSizeBytes < b.compressedSizeBytes
  }

  ghost predicate SortedBySize(pws: Parts) {
    forall i, j :: 0 <= i <= j < |pws| ==> pws[i].compressedSizeBytes <= pws[j].compressedSizeBytes
  }

  /** Parts up to maxOutBytes / 1.7 in size may be merged. */
  predicate NotTooBig(pw: PartHeader, maxOutBytes: nat) {
    17 * pw.compressedSizeBytes <= 10 * maxOutBytes
  }

  // ---------- Windows of size-sorted parts ----------

  function Window(pws: Parts, j: nat, n: nat): (a: Parts)
    requires j + n <= |pws|
    ensures |a| == n
  {
    pws[j..j + n]
  }

  function Last(a: Parts): nat
    requires a != []
  {
    a[|a| - 1].compressedSizeBytes
  }

  /** The smallest part is not too small compared to the biggest one. */
  predicate Balanced(a: Parts)
    requires a != []
  {
    a[0].compressedSizeBytes * |a| >= Last(a)
  }

  /** The size of the result compared to its biggest source. */
  function Multiplier(a: Parts): real
    requires a != [] && Last(a) > 0
  {
    GetCompressedSize(a) as real / Last(a) as real
  }

  /** A window that may be merged, whatever its multiplier. */
  ghost predicate Mergeable(pws: Parts, maxOutBytes: nat, j: nat, n: nat) {
    n > 0 && j + n <= |pws| && Balanced(Window(pws, j, n)) && GetCompressedSize(Window(pws, j, n)) <= maxOutBytes
  }

  lemma {:induction false} SizeOfWindowBound(a: Parts, max: nat)
    requires forall i :: 0 <= i < |a| ==> a[i].compressedSizeBytes <= max
    ensures GetCompressedSize(a) <= |a| * max
  {
    if a != [] {
      SizeOfWindowBound(a[..|a| - 1], max);
      assert |a| * max == (|a| - 1) * max + max;
    }
  }

  /** n parts cannot give more than n times the biggest one. */
  lemma {:induction false} MultiplierBound(pws: Parts, j: nat, n: nat)
    requires SortedBySize(pws) && PositiveSizes(pws) && n > 0 && j + n <= |pws|
    ensures Multiplier(Window(pws, j, n)) <= n as real
  {
    var a := Window(pws, j, n);
    SizeOfWindowBound(a, Last(a));
    DivideBound(GetCompressedSize(a) as real, Last(a) as real, n as real);
  }

  lemma {:induction false} DivideBound(x: real, y: real, b: real)
    requires y > 0.0 && x <= b * y
    ensures x / y <= b
  {
  }

  lemma {:induction false} DivideLowerBound(x: real, y: real, b: real)
    requires y > 0.0 && x / y >= b
    ensures x >= b * y
  {
    assert x == (x / y) * y;
    MultiplyBound(x / y, b, y);
  }

  lemma {:induction false} MultiplyBound(a: real, b: real, y: real)
    requires y >= 0.0 && a >= b
    ensures a * y >= b * y
  {
  }

  /** A window further to the right is not smaller, so a search may stop at the first one that is too big. */
  lemma {:induction false} WindowsGrow(pws: Parts, j: nat, k: nat, n: nat)
    requires SortedBySize(pws) && j <= k && k + n <= |pws|
    ensures GetCompressedSize(Window(pws, j, n)) <= GetCompressedSize(Window(pws, k, n))
  {
    if n > 0 {
      assert Window(pws, j, n)[..n - 1] == Window(pws, j, n - 1);
      assert Window(pws, k, n)[..n - 1] == Window(pws, k, n - 1);
      WindowsGrow(pws, j, k, n - 1);
    }
  }

  // ---------- The search ----------

  /** The best window found so far, if any; maxM is its multiplier. */
  datatype Best = None | Some(j: nat, n: nat)

  ghost predicate IsBest(pws: Parts, maxOutBytes: nat, best: Best, maxM: real) {
    match best
    case None => maxM == 0.0
    case Some(j, n) =>
      && Mergeable(pws, maxOutBytes, j, n) && Last(Window(pws, j, n)) > 0
      && maxM == Multiplier(Window(pws, j, n))
  }

  /** A window of n parts from j on with multiplier m comes behind the best one: of windows with the same
      multiplier the longest one counts, and of those the one with the biggest parts. */
  predicate IsBehind(j: nat, n: nat, m: real, best: Best, maxM: real) {
    m < maxM || (m == maxM && best.Some? && (n < best.n || (n == best.n && j <= best.j)))
  }

  /** No window of n parts that starts before `end` is better. */
  ghost predicate NoneBetter(pws: Parts, maxOutBytes: nat, best: Best, maxM: real, n: nat, end: int) {
    forall j: nat :: j < end && Mergeable(pws, maxOutBytes, j, n) && Last(Window(pws, j, n)) > 0 ==>
                       IsBehind(j, n, Multiplier(Window(pws, j, n)), best, maxM)
  }

  /** A best window is replaced only by one that it comes behind. */
  ghost predicate IsNotWorse(best: Best, maxM: real, best': Best, maxM': real) {
    maxM < maxM' || (maxM == maxM' && (best == best' || (best'.Some? && (best.Some? ==> IsBehind(best.j, best.n, maxM, best', maxM')))))
  }

  lemma {:induction false} StillNoneBetter(pws: Parts, maxOutBytes: nat, best: Best, maxM: real, best': Best, maxM': real, n: nat, end: int)
    requires NoneBetter(pws, maxOutBytes, best, maxM, n, end) && IsNotWorse(best, maxM, best', maxM')
    ensures NoneBetter(pws, maxOutBytes, best', maxM', n, end)
  {
  }

  method SearchLength(pws: Parts, maxOutBytes: nat, n: nat, best0: Best, maxM0: real)
    returns (best: Best, maxM: real)
    requires SortedBySize(pws) && PositiveSizes(pws) && 0 < n <= |pws| && IsBest(pws, maxOutBytes, best0, maxM0)
    requires best0.Some? ==> best0.n < n
    ensures IsBest(pws, maxOutBytes, best, maxM) && IsNotWorse(best0, maxM0, best, maxM)
    ensures best == best0 || (best.Some? && best.n == n)
    ensures NoneBetter(pws, maxOutBytes, best, maxM, n, |pws|)
  {
    best, maxM := best0, maxM0;
    var j := 0;
    while j < |pws| - n + 1
      invariant 0 <= j <= |pws| - n + 1
      invariant IsBest(pws, maxOutBytes, best, maxM) && IsNotWorse(best0, maxM0, best, maxM)
      invariant best == best0 || (best.Some? && best.n == n && best.j < j)
      invariant NoneBetter(pws, maxOutBytes, best, maxM, n, j)
    {
      var a := Window(pws, j, n);
      if a[0].compressedSizeBytes * |a| < a[|a| - 1].compressedSizeBytes {
        j := j + 1;
        continue;
      }
      var outSize := SumCompressedSize(a);
      if outSize > maxOutBytes {
        RestIsTooBig(pws, maxOutBytes, best, maxM, n, j);
        break;
      }
      var m := outSize as real / a[|a| - 1].compressedSizeBytes as real;
      NextWindow(pws, maxOutBytes, best, maxM, n, j, m);
      if m >= maxM {
        maxM := m;
        best := Some(j, n);
      }
      j := j + 1;
    }
  }

  /** The search may stop at a window that is too big. */
  lemma {:induction false} RestIsTooBig(pws: Parts, maxOutBytes: nat, best: Best, maxM: real, n: nat, j: nat)
    requires SortedBySize(pws) && j + n <= |pws| && GetCompressedSize(Window(pws, j, n)) > maxOutBytes
    requires NoneBetter(pws, maxOutBytes, best, maxM, n, j)
    ensures NoneBetter(pws, maxOutBytes, best, maxM, n, |pws|)
  {
    forall k: nat | j <= k && k + n <= |pws| ensures GetCompressedSize(Window(pws, k, n)) > maxOutBytes {
      WindowsGrow(pws, j, k, n);
    }
  }

  /** One more window has been looked at. */
  lemma {:induction false} NextWindow(pws: Parts, maxOutBytes: nat, best: Best, maxM: real, n: nat, j: nat, m: real)
    requires NoneBetter(pws, maxOutBytes, best, maxM, n, j) && (best.Some? ==> best.n < n || (best.n == n && best.j < j))
    requires Mergeable(pws, maxOutBytes, j, n) && Last(Window(pws, j, n)) > 0 ==> m == Multiplier(Window(pws, j, n))
    ensures if m >= maxM then NoneBetter(pws, maxOutBytes, Some(j, n), m, n, j + 1) && IsNotWorse(best, maxM, Some(j, n), m)
            else NoneBetter(pws, maxOutBytes, best, maxM, n, j + 1)
  {
  }

  /** Whether merging pays off at all. */
  const MIN_M: real := 7.5

  /** `a` is the best of all windows of up to 15 sorted parts. */
  ghost predicate IsChoice(sorted: Parts, maxOutBytes: nat, a: Parts) {
    exists j: nat :: IsBestWindow(sorted, maxOutBytes, a, j)
  }

  ghost predicate IsBestWindow(sorted: Parts, maxOutBytes: nat, a: Parts, j: nat) {
    && Mergeable(sorted, maxOutBytes, j, |a|) && a == Window(sorted, j, |a|)
    && 8 <= |a| <= 15 && PositiveSizes(a) && Multiplier(a) >= 7.5
    && forall k: nat, n: nat :: n <= 15 && Mergeable(sorted, maxOutBytes, k, n) && Last(Window(sorted, k, n)) > 0 ==>
                                 IsBehind(k, n, Multiplier(Window(sorted, k, n)), Some(j, |a|), Multiplier(a))
  }

  ghost predicate NoChoice(sorted: Parts, maxOutBytes: nat) {
    forall j: nat, n: nat :: n <= 15 && Mergeable(sorted, maxOutBytes, j, n) && Last(Window(sorted, j, n)) > 0 ==>
                               Multiplier(Window(sorted, j, n)) < 7.5
  }

  /** There is at most one best window. */
  lemma {:induction false} OnlyOneChoice(sorted: Parts, maxOutBytes: nat, a: Parts, b: Parts)
    requires IsChoice(sorted, maxOutBytes, a) && (IsChoice(sorted, maxOutBytes, b) || NoChoice(sorted, maxOutBytes))
    ensures IsChoice(sorted, maxOutBytes, b) && a == b
  {
    var j: nat :| IsBestWindow(sorted, maxOutBytes, a, j);
    if IsChoice(sorted, maxOutBytes, b) {
      var k: nat :| IsBestWindow(sorted, maxOutBytes, b, k);
    }
  }

  function MaxSrcParts(n: nat): nat {
    if DEFAULT_PARTS_TO_MERGE < n then DEFAULT_PARTS_TO_MERGE else n
  }

  function MinSrcParts(n: nat): (m: nat)
    ensures 2 <= m <= 8
  {
    var half := (MaxSrcParts(n) + 1) / 2;
    if half > 2 then half else 2
  }

  method SearchSorted(src: Parts, maxOutBytes: nat) returns (pws: Parts)
    requires SortedBySize(src) && PositiveSizes(src)
    ensures if pws == [] then NoChoice(src, maxOutBytes) else IsChoice(src, maxOutBytes, pws)
  {
    var maxSrcParts, minSrcParts := MaxSrcParts(|src|), MinSrcParts(|src|);
    var best, maxM := None, 0.0;
    var i := minSrcParts;
    while i <= maxSrcParts
      invariant minSrcParts <= i && (best.Some? ==> best.n < i && best.n <= maxSrcParts)
      invariant IsBest(src, maxOutBytes, best, maxM)
      invariant forall n: nat :: minSrcParts <= n < i && n <= maxSrcParts ==> NoneBetter(src, maxOutBytes, best, maxM, n, |src|)
    {
      ghost var best0, maxM0 := best, maxM;
      best, maxM := SearchLength(src, maxOutBytes, i, best, maxM);
      forall n: nat | minSrcParts <= n < i ensures NoneBetter(src, maxOutBytes, best, maxM, n, |src|) {
        StillNoneBetter(src, maxOutBytes, best0, maxM0, best, maxM, n, |src|);
      }
      i := i + 1;
    }
    BestOfAll(src, maxOutBytes, best, maxM);
    if maxM < MIN_M {
      return [];
    }
    pws := Window(src, best.j, best.n);
  }

  /** The windows that were looked at are all that matter. */
  lemma {:induction false} BestOfAll(src: Parts, maxOutBytes: nat, best: Best, maxM: real)
    requires SortedBySize(src) && PositiveSizes(src) && IsBest(src, maxOutBytes, best, maxM)
    requires best.Some? ==> best.n <= MaxSrcParts(|src|)
    requires forall n: nat :: MinSrcParts(|src|) <= n <= MaxSrcParts(|src|) ==> NoneBetter(src, maxOutBytes, best, maxM, n, |src|)
    ensures if maxM < MIN_M then NoChoice(src, maxOutBytes)
            else best.Some? && IsChoice(src, maxOutBytes, Window(src, best.j, best.n))
  {
    forall j: nat, n: nat | n <= 15 && Mergeable(src, maxOutBytes, j, n) && Last(Window(src, j, n)) > 0
      ensures Multiplier(Window(src, j, n)) < MIN_M || IsBehind(j, n, Multiplier(Window(src, j, n)), best, maxM)
    {
      if n < MinSrcParts(|src|) {
        ShortWindow(src, j, n);
      } else {
        assert NoneBetter(src, maxOutBytes, best, maxM, n, |src|);
      }
    }
    if maxM >= MIN_M {
      MultiplierBound(src, best.j, best.n);
      assert IsBestWindow(src, maxOutBytes, Window(src, best.j, best.n), best.j);
    }
  }

  /** Windows below the minimal length do not pay off. */
  lemma {:induction false} ShortWindow(pws: Parts, j: nat, n: nat)
    requires SortedBySize(pws) && PositiveSizes(pws) && 0 < n < 8 && j + n <= |pws|
    ensures Multiplier(Window(pws, j, n)) < MIN_M
  {
    MultiplierBound(pws, j, n);
  }

  // ---------- Choosing parts ----------

  lemma {:induction false} PartOrder()
    ensures TotalPreorder(PartLeq)
  {
  }

  method FilterTooBig(src: Parts, maxOutBytes: nat) returns (tmp: Parts)
    ensures tmp == Eligible(src, maxOutBytes)
  {
    tmp := [];
    for i := 0 to |src|
      invariant tmp == Eligible(src[..i], maxOutBytes)
    {
      assert src[..i + 1][..i] == src[..i];
      if NotTooBig(src[i], maxOutBytes) {
        tmp := tmp + [src[i]];
      }
    }
    assert src[..|src|] == src;
  }

  function Eligible(src: Parts, maxOutBytes: nat): Parts {
    if src == [] then []
    else
      var rest := Eligible(src[..|src| - 1], maxOutBytes);
      if NotTooBig(src[|src| - 1], maxOutBytes) then rest + [src[|src| - 1]] else rest
  }

  lemma {:induction false} EligibleParts(src: Parts, maxOutBytes: nat)
    ensures multiset(Eligible(src, maxOutBytes)) <= multiset(src)
    ensures PositiveSizes(src) ==> PositiveSizes(Eligible(src, maxOutBytes))
    ensures forall pw: PartHeader :: multiset(Eligible(src, maxOutBytes))[pw] ==
                                     if 17 * pw.compressedSizeBytes <= 10 * maxOutBytes then multiset(src)[pw] else 0
  {
    if src != [] {
      EligibleParts(src[..|src| - 1], maxOutBytes);
      assert src == src[..|src| - 1] + [src[|src| - 1]];
    }
  }

  lemma {:induction false} PermutationKeepsSizes(a: Parts, b: Parts)
    requires multiset(a) == multiset(b) && PositiveSizes(a)
    ensures PositiveSizes(b)
  {
    forall i | 0 <= i < |b| ensures b[i].compressedSizeBytes > 0 {
      assert b[i] in multiset(a);
    }
  }

  lemma {:induction false} ChosenParts(src: Parts, sorted: Parts, maxOutBytes: nat, a: Parts)
    requires multiset(sorted) <= multiset(src) && IsChoice(sorted, maxOutBytes, a)
    ensures multiset(a) <= multiset(src)
  {
    var j: nat :| IsBestWindow(sorted, maxOutBytes, a, j);
    assert sorted == sorted[..j] + a + sorted[j + |a|..];
  }

  /** The parts in the order the search looks at them. */
  ghost predicate SearchOrder(sorted: Parts, src: Parts, maxOutBytes: nat) {
    && (forall pw: PartHeader :: multiset(sorted)[pw] == if 17 * pw.compressedSizeBytes <= 10 * maxOutBytes then multiset(src)[pw] else 0)
    && forall i, j :: 0 <= i < j < |sorted| ==> IsNotBehind(sorted[i], sorted[j])
  }

  /** Smaller parts come first, and of parts of one size the newest. */
  predicate IsNotBehind(a: PartHeader, b: PartHeader) {
    a.compressedSizeBytes < b.compressedSizeBytes ||
    (a.compressedSizeBytes == b.compressedSizeBytes && a.minTimestamp >= b.minTimestamp)
  }

  lemma {:induction false} SortedIsSearchOrder(src: Parts, sorted: Parts, maxOutBytes: nat)
    requires multiset(sorted) == multiset(Eligible(src, maxOutBytes)) && SortedBy(sorted, PartLeq)
    ensures SearchOrder(sorted, src, maxOutBytes) && multiset(sorted) <= multiset(src) && SortedBySize(sorted)
    ensures PositiveSizes(src) ==> PositiveSizes(sorted)
  {
    EligibleParts(src, maxOutBytes);
    assert forall i, j :: 0 <= i < j < |sorted| ==> PartLeq(sorted[i], sorted[j]);
    if PositiveSizes(src) {
      PermutationKeepsSizes(Eligible(src, maxOutBytes), sorted);
    }
  }

  lemma {:induction false} NothingToMerge(src: Parts, maxOutBytes: nat)
    requires PositiveSizes(src) && |src| < 2
    ensures SearchOrder(Eligible(src, maxOutBytes), src, maxOutBytes) && NoChoice(Eligible(src, maxOutBytes), maxOutBytes)
  {
    var sorted := Eligible(src, maxOutBytes);
    EligibleParts(src, maxOutBytes);
    assert |sorted| == |multiset(sorted)| <= |multiset(src)| by {
      assert multiset(src) == multiset(sorted) + (multiset(src) - multiset(sorted));
    }
    SortedIsSearchOrder(src, sorted, maxOutBytes);
    forall j: nat, n: nat | Mergeable(sorted, maxOutBytes, j, n) && Last(Window(sorted, j, n)) > 0
      ensures Multiplier(Window(sorted, j, n)) < MIN_M
    {
      ShortWindow(sorted, j, n);
    }
  }

  /** The best merge of up to 15 of the given parts, or nothing when none pays off. */
  method AppendPartsToMerge(src: Parts, maxOutBytes: nat) returns (pws: Parts, ghost sorted: Parts)
    requires PositiveSizes(src)
    ensures SearchOrder(sorted, src, maxOutBytes) && multiset(pws) <= multiset(src)
    ensures if pws == [] then NoChoice(sorted, maxOutBytes) else IsChoice(sorted, maxOutBytes, pws)
  {
    if |src| < 2 {
      NothingToMerge(src, maxOutBytes);
      return [], Eligible(src, maxOutBytes);
    }
    PartOrder();
    var tmp := FilterTooBig(src, maxOutBytes);
    var order := Sort(tmp, PartLeq);
    SortedIsSearchOrder(src, order, maxOutBytes);
    pws := SearchSorted(order, maxOutBytes);
    sorted := order;
    if pws != [] {
      ChosenParts(src, order, maxOutBytes, pws);
    }
  }

  // ---------- Different parts ----------

  ghost predicate DistinctIds(pws: Parts) {
    forall i, j :: 0 <= i < j < |pws| ==> pws[i].id != pws[j].id
  }

  lemma {:induction false} OnlyOnce(pws: Parts, pw: PartHeader)
    requires DistinctIds(pws)
    ensures multiset(pws)[pw] <= 1
  {
    if pws != [] {
      OnlyOnce(pws[..|pws| - 1], pw);
      assert pws == pws[..|pws| - 1] + [pws[|pws| - 1]];
    }
  }

  // ---------- How often a row is rewritten ----------

  /** Part i of the list was merged into the next one, whose size is the sum of the sources. */
  ghost predicate IsRewritten(sizes: seq<nat>, merges: seq<Parts>) {
    && |sizes| == |merges| + 1 && sizes[0] > 0
    && forall i :: 0 <= i < |merges| ==> IsSource(sizes, merges, i)
  }

  ghost predicate IsSource(sizes: seq<nat>, merges: seq<Parts>, i: nat)
    requires i < |merges| < |sizes|
  {
    && (exists sorted, maxOutBytes :: SortedBySize(sorted) && IsChoice(sorted, maxOutBytes, merges[i]))
    && (exists k :: 0 <= k < |merges[i]| && merges[i][k].compressedSizeBytes == sizes[i])
    && sizes[i + 1] == GetCompressedSize(merges[i])
  }

  function Power(base: nat, exp: nat): nat {
    if exp == 0 then 1 else base * Power(base, exp - 1)
  }

  /** A chosen merge grows every source at least 7.5 times. */
  lemma {:induction false} MergeGrows(sorted: Parts, maxOutBytes: nat, a: Parts, k: nat)
    requires SortedBySize(sorted) && IsChoice(sorted, maxOutBytes, a) && k < |a|
    ensures 2 * GetCompressedSize(a) >= 15 * a[k].compressedSizeBytes
  {
    assert a[k].compressedSizeBytes <= Last(a) by {
      var j: nat :| IsBestWindow(sorted, maxOutBytes, a, j);
    }
    GrowsBy(GetCompressedSize(a), Last(a), a[k].compressedSizeBytes);
  }

  lemma {:induction false} GrowsBy(size: nat, last: nat, source: nat)
    requires last > 0 && size as real / last as real >= MIN_M && source <= last
    ensures 2 * size >= 15 * source
  {
    DivideLowerBound(size as real, last as real, MIN_M);
  }

  /** A row whose part was merged k times is in a part at least 7.5 to the power of k times the
      size of its first part; so the number of rewrites is logarithmic. */
  lemma {:induction false} RewritesAreFew(sizes: seq<nat>, merges: seq<Parts>)
    requires IsRewritten(sizes, merges)
    ensures Power(2, |merges|) * sizes[|merges|] >= Power(15, |merges|) * sizes[0]
    decreases |merges|
  {
    var k := |merges|;
    if k > 0 {
      var i := k - 1;
      forall j | 0 <= j < i ensures IsSource(sizes[..k], merges[..i], j) {
        assert IsSource(sizes, merges, j);
      }
      RewritesAreFew(sizes[..k], merges[..i]);
      assert IsSource(sizes, merges, i);
      var sorted, maxOutBytes :| SortedBySize(sorted) && IsChoice(sorted, maxOutBytes, merges[i]);
      var s :| 0 <= s < |merges[i]| && merges[i][s].compressedSizeBytes == sizes[i];
      MergeGrows(sorted, maxOutBytes, merges[i], s);
      OneMoreRewrite(Power(2, i), Power(15, i), sizes[i], sizes[k], sizes[0]);
    }
  }

  lemma {:induction false} OneMoreRewrite(p: nat, q: nat, s: nat, s': nat, s0: nat)
    requires p * s >= q * s0 && 2 * s' >= 15 * s
    ensures (2 * p) * s' >= (15 * q) * s0
  {
    assert p * (2 * s') >= p * (15 * s) by {
      Monotone(p, 15 * s, 2 * s');
    }
    assert p * (15 * s) == 15 * (p * s);
  }

  lemma {:induction false} Monotone(p: nat, a: int, b: int)
    requires a <= b
    ensures p * a <= p * b
  {
  }
}
