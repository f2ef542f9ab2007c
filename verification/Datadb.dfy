/** The lists of parts and the sections that change them under their lock. PartLifecycle shows
    what their interleavings keep. */
module Datadb {
  import opened PartSelection
  import opened Sorting
  import PL = PartLifecycle

  // ---------- Lists without some elements ----------

  ghost predicate Distinct<T>(xs: seq<T>) {
    forall i, j :: 0 <= i < j < |xs| ==> xs[i] != xs[j]
  }

  function SetOf<T>(xs: seq<T>): set<T> {
    set x | x in xs
  }

  /** xs without the elements of drop, in the same order. */
  function Removed<T>(xs: seq<T>, drop: set<T>): (rest: seq<T>)
    ensures |rest| <= |xs|
  {
    if xs == [] then []
    else
      var rest := Removed(xs[..|xs| - 1], drop);
      if xs[|xs| - 1] in drop then rest else rest + [xs[|xs| - 1]]
  }

  lemma {:induction false} RemovedElements<T>(xs: seq<T>, drop: set<T>)
    ensures forall i :: 0 <= i < |Removed(xs, drop)| ==> Removed(xs, drop)[i] in xs && Removed(xs, drop)[i] !in drop
    ensures Distinct(xs) ==> Distinct(Removed(xs, drop))
  {
    if xs != [] {
      var ys, last := xs[..|xs| - 1], xs[|xs| - 1];
      var rest := Removed(ys, drop);
      RemovedElements(ys, drop);
      assert xs == ys + [last];
      assert forall i :: 0 <= i < |rest| ==> rest[i] in ys && rest[i] !in drop;
      if last !in drop {
        assert Removed(xs, drop) == rest + [last];
      }
    }
  }

  /** Removing from a list is what PartLifecycle does with sets. */
  lemma {:induction false} RemovedAsSet<T>(xs: seq<T>, drop: set<T>)
    ensures SetOf(Removed(xs, drop)) == SetOf(xs) - drop
  {
    if xs != [] {
      var ys, last := xs[..|xs| - 1], xs[|xs| - 1];
      RemovedAsSet(ys, drop);
      assert xs == ys + [last];
      assert SetOf(xs) == SetOf(ys) + {last};
      assert SetOf(Removed(ys, drop) + [last]) == SetOf(Removed(ys, drop)) + {last};
    }
  }

  lemma {:induction false} SizeWithOneMore<T>(a: set<T>, drop: set<T>, x: T)
    requires x !in a
    ensures |(a + {x}) * drop| == |a * drop| + if x in drop then 1 else 0
  {
    if x in drop {
      assert (a + {x}) * drop == a * drop + {x};
    } else {
      assert (a + {x}) * drop == a * drop;
    }
  }

  lemma {:induction false} RemovedCount<T>(xs: seq<T>, drop: set<T>)
    requires Distinct(xs)
    ensures |xs| == |Removed(xs, drop)| + |SetOf(xs) * drop|
  {
    if xs == [] {
      assert SetOf(xs) * drop == {};
    } else {
      var ys, x := xs[..|xs| - 1], xs[|xs| - 1];
      RemovedCount(ys, drop);
      assert xs == ys + [x];
      assert SetOf(xs) == SetOf(ys) + {x};
      SizeWithOneMore(SetOf(ys), drop, x);
    }
  }

  lemma {:induction false} SizeOfThree<T>(a: set<T>, b: set<T>, c: set<T>, drop: set<T>)
    requires a * b == {} && a * c == {} && b * c == {}
    ensures |a * drop| + |b * drop| + |c * drop| == |drop| <==> drop <= a + b + c
  {
    var x, y, z := a * drop, b * drop, c * drop;
    var found := x + (y + z);
    assert x * (y + z) == {} && y * z == {};
    assert |found| == |x| + |y| + |z|;
    assert found <= drop && drop == found + (drop - found);
    assert found == drop <==> drop <= a + b + c;
  }

  /** The numbers of removed elements add up exactly when everything to remove was listed. */
  lemma {:induction false} RemovedFromThree<T>(a: seq<T>, b: seq<T>, c: seq<T>, drop: set<T>)
    requires Distinct(a) && Distinct(b) && Distinct(c)
    requires SetOf(a) * SetOf(b) == {} && SetOf(a) * SetOf(c) == {} && SetOf(b) * SetOf(c) == {}
    ensures (|a| - |Removed(a, drop)|) + (|b| - |Removed(b, drop)|) + (|c| - |Removed(c, drop)|) == |drop|
            <==> drop <= SetOf(a) + SetOf(b) + SetOf(c)
  {
    RemovedCount(a, drop);
    RemovedCount(b, drop);
    RemovedCount(c, drop);
    SizeOfThree(SetOf(a), SetOf(b), SetOf(c), drop);
  }

  lemma {:induction false} SizeOfSetOf<T>(xs: seq<T>)
    ensures |SetOf(xs)| == |xs| <==> Distinct(xs)
    ensures |SetOf(xs)| <= |xs|
  {
    if xs != [] {
      var ys, x := xs[..|xs| - 1], xs[|xs| - 1];
      SizeOfSetOf(ys);
      assert xs == ys + [x];
      assert SetOf(xs) == SetOf(ys) + {x};
      if x in ys {
        var i :| 0 <= i < |ys| && ys[i] == x;
        assert xs[i] == xs[|xs| - 1];
      }
      if !Distinct(ys) {
        var i, j :| 0 <= i < j < |ys| && ys[i] == ys[j];
        assert xs[i] == xs[j];
      }
      if Distinct(ys) && x !in ys {
        assert Distinct(xs);
      }
    }
  }

  // ---------- Parts ----------

  /** A reference-counted part. */
  class PartWrapper {
    const ph: PartHeader
    /** A part in memory has no directory. */
    const isInmemory: bool
    const name: nat
    const flushDeadline: int
    var refCount: int
    var mustDrop: bool
    var isInMerge: bool
    var isOpen: bool

    /** The list that gets the part holds the first reference. */
    constructor (ph: PartHeader, isInmemory: bool, name: nat, flushDeadline: int)
      ensures this.ph == ph && this.isInmemory == isInmemory && this.name == name && this.flushDeadline == flushDeadline
      ensures refCount == 1 && !mustDrop && !isInMerge && isOpen
    {
      this.ph, this.isInmemory, this.name, this.flushDeadline := ph, isInmemory, name, flushDeadline;
      refCount, mustDrop, isInMerge, isOpen := 1, false, false, true;
    }

    method IncRef()
      modifies this`refCount
      ensures refCount == old(refCount) + 1
    {
      refCount := refCount + 1;
    }

    /** The last reference closes the part, and deletes its directory if the part was dropped. */
    method DecRef() returns (deleted: bool)
      requires isOpen
      modifies this`refCount, this`isOpen
      ensures refCount == old(refCount) - 1 && isOpen == (refCount > 0)
      ensures deleted == (refCount <= 0 && !isInmemory && mustDrop)
    {
      refCount := refCount - 1;
      if refCount > 0 {
        return false;
      }
      deleted := !isInmemory && mustDrop;
      isOpen := false;
    }
  }

  type Wrappers = seq<PartWrapper>

  function Headers(pws: Wrappers): (phs: Parts)
    ensures |phs| == |pws|
  {
    seq(|pws|, i requires 0 <= i < |pws| => pws[i].ph)
  }

  /** The parts that no merge works on. */
  function Unclaimed(pws: Wrappers): Wrappers
    reads pws`isInMerge
  {
    if pws == [] then []
    else
      var rest := Unclaimed(pws[..|pws| - 1]);
      if pws[|pws| - 1].isInMerge then rest else rest + [pws[|pws| - 1]]
  }

  /** Parts have different numbers and are not empty. */
  ghost predicate ValidParts(pws: Wrappers) {
    && (forall i, j :: 0 <= i < j < |pws| ==> pws[i].ph.id != pws[j].ph.id)
    && forall i :: 0 <= i < |pws| ==> pws[i].ph.compressedSizeBytes > 0
  }

  /** All of them, as often as they are listed. */
  lemma {:induction false} UnclaimedCount(pws: Wrappers, pw: PartWrapper)
    ensures multiset(Unclaimed(pws))[pw] == if pw.isInMerge then 0 else multiset(pws)[pw]
  {
    if pws != [] {
      UnclaimedCount(pws[..|pws| - 1], pw);
      assert pws == pws[..|pws| - 1] + [pws[|pws| - 1]];
    }
  }

  lemma {:induction false} UnclaimedElements(pws: Wrappers)
    ensures forall i :: 0 <= i < |Unclaimed(pws)| ==> Unclaimed(pws)[i] in pws && !Unclaimed(pws)[i].isInMerge
    ensures ValidParts(pws) ==> ValidParts(Unclaimed(pws))
  {
    if pws != [] {
      var ys, last := pws[..|pws| - 1], pws[|pws| - 1];
      var rest := Unclaimed(ys);
      UnclaimedElements(ys);
      assert pws == ys + [last];
      assert forall i :: 0 <= i < |rest| ==> rest[i] in ys && !rest[i].isInMerge;
      if !last.isInMerge {
        assert Unclaimed(pws) == rest + [last];
        if ValidParts(pws) {
          forall i | 0 <= i < |rest| ensures rest[i].ph.id != last.ph.id {
            assert rest[i] in ys;
          }
        }
      }
    }
  }

  method FindPart(pws: Wrappers, ph: PartHeader) returns (pw: PartWrapper)
    requires ph in Headers(pws)
    ensures pw in pws && pw.ph == ph
  {
    var i := 0;
    while pws[i].ph != ph
      invariant 0 <= i < |pws| && exists k :: i <= k < |pws| && pws[k].ph == ph
      decreases |pws| - i
    {
      i := i + 1;
    }
    return pws[i];
  }

  method FindParts(pws: Wrappers, phs: Parts) returns (found: Wrappers)
    requires forall ph :: ph in phs ==> ph in Headers(pws)
    ensures Headers(found) == phs && forall k :: 0 <= k < |found| ==> found[k] in pws
  {
    found := [];
    for i := 0 to |phs|
      invariant Headers(found) == phs[..i] && forall k :: 0 <= k < |found| ==> found[k] in pws
    {
      var pw := FindPart(pws, phs[i]);
      assert Headers(found + [pw]) == Headers(found) + [pw.ph];
      found := found + [pw];
    }
  }

  lemma {:induction false} ChosenOnce(phs: Parts, pws: Parts)
    requires multiset(phs) <= multiset(pws) && DistinctIds(pws)
    ensures Distinct(phs) && forall ph :: ph in phs ==> ph in pws
  {
    forall ph | ph in phs ensures ph in pws {
      assert ph in multiset(pws);
    }
    forall i, j | 0 <= i < j < |phs| ensures phs[i] != phs[j] {
      OnlyOnce(pws, phs[j]);
      assert phs == phs[..j] + [phs[j]] + phs[j + 1..];
      assert phs[i] in phs[..j];
    }
  }

  /** Claims the best merge among the parts that no other merge works on. */
  method GetPartsToMergeLocked(pws: Wrappers, maxOutBytes: nat) returns (pwsToMerge: Wrappers, ghost sorted: Parts)
    requires ValidParts(pws)
    modifies pws`isInMerge
    ensures SearchOrder(sorted, old(Headers(Unclaimed(pws))), maxOutBytes)
    ensures if pwsToMerge == [] then NoChoice(sorted, maxOutBytes) else IsChoice(sorted, maxOutBytes, Headers(pwsToMerge))
    ensures Distinct(pwsToMerge) && forall pw :: pw in pwsToMerge ==> pw in pws && !old(pw.isInMerge)
    ensures forall pw :: pw in pws ==> pw.isInMerge == (old(pw.isInMerge) || pw in pwsToMerge)
  {
    var pwsRemaining := CollectUnclaimed(pws);
    UnclaimedElements(pws);
    pwsToMerge, sorted := ChooseParts(pwsRemaining, maxOutBytes);
    forall k | 0 <= k < |pwsToMerge| ensures pwsToMerge[k] in pws && !pwsToMerge[k].isInMerge {
      assert pwsToMerge[k] in pwsRemaining;
    }
    Claim(pwsToMerge);
  }

  method ChooseParts(pws: Wrappers, maxOutBytes: nat) returns (chosen: Wrappers, ghost sorted: Parts)
    requires ValidParts(pws)
    ensures SearchOrder(sorted, Headers(pws), maxOutBytes)
    ensures if chosen == [] then NoChoice(sorted, maxOutBytes) else IsChoice(sorted, maxOutBytes, Headers(chosen))
    ensures Distinct(chosen) && forall i :: 0 <= i < |chosen| ==> chosen[i] in pws
  {
    var phs;
    phs, sorted := AppendPartsToMerge(Headers(pws), maxOutBytes);
    ChosenOnce(phs, Headers(pws));
    chosen := FindParts(pws, phs);
    assert forall k :: 0 <= k < |phs| ==> chosen[k].ph == phs[k];
  }

  /** Marks the parts; a part that is marked already would be a panic, which cannot happen. */
  method Claim(pws: Wrappers)
    requires Distinct(pws) && forall pw :: pw in pws ==> !pw.isInMerge
    modifies pws`isInMerge
    ensures forall pw :: pw in pws ==> pw.isInMerge
  {
    for i := 0 to |pws|
      invariant forall k :: 0 <= k < |pws| ==> pws[k].isInMerge == (k < i)
    {
      assert !pws[i].isInMerge;
      pws[i].isInMerge := true;
    }
  }

  method CollectUnclaimed(pws: Wrappers) returns (pwsRemaining: Wrappers)
    ensures pwsRemaining == Unclaimed(pws)
  {
    pwsRemaining := [];
    for i := 0 to |pws|
      invariant pwsRemaining == Unclaimed(pws[..i])
    {
      assert pws[..i + 1][..i] == pws[..i];
      if !pws[i].isInMerge {
        pwsRemaining := pwsRemaining + [pws[i]];
      }
    }
    assert pws[..|pws|] == pws;
  }

  // ---------- Splitting many parts into merges ----------

  lemma {:induction false} DistinctCount<T>(xs: seq<T>, x: T)
    requires Distinct(xs)
    ensures multiset(xs)[x] == if x in xs then 1 else 0
  {
    if xs != [] {
      var ys, last := xs[..|xs| - 1], xs[|xs| - 1];
      assert xs == ys + [last] && last !in ys;
      DistinctCount(ys, x);
    }
  }

  lemma {:induction false} ValidPartsAreDistinct(pws: Wrappers)
    requires ValidParts(pws)
    ensures Distinct(pws)
  {
  }

  lemma {:induction false} WithoutChosen<T>(xs: seq<T>, chosen: seq<T>)
    requires Distinct(xs) && Distinct(chosen) && forall i :: 0 <= i < |chosen| ==> chosen[i] in xs
    ensures multiset(chosen) + multiset(Removed(xs, SetOf(chosen))) == multiset(xs)
  {
    var rest := Removed(xs, SetOf(chosen));
    RemovedElements(xs, SetOf(chosen));
    RemovedAsSet(xs, SetOf(chosen));
    forall x: T ensures (multiset(chosen) + multiset(rest))[x] == multiset(xs)[x] {
      DistinctCount(xs, x);
      DistinctCount(chosen, x);
      DistinctCount(rest, x);
      assert x in rest <==> x in SetOf(rest);
      assert x in xs <==> x in SetOf(xs);
      assert x in chosen <==> x in SetOf(chosen);
    }
  }

  lemma {:induction false} RemovedIsValidParts(pws: Wrappers, drop: set<PartWrapper>)
    requires ValidParts(pws)
    ensures ValidParts(Removed(pws, drop))
  {
    var rest := Removed(pws, drop);
    RemovedElements(pws, drop);
    forall i | 0 <= i < |rest| ensures rest[i].ph.compressedSizeBytes > 0 {
      assert rest[i] in pws;
    }
    forall i, j | 0 <= i < j < |rest| ensures rest[i].ph.id != rest[j].ph.id {
      assert rest[i] in pws && rest[j] in pws && rest[i] != rest[j];
    }
  }

  /** The best merge of the parts, or all of them when no choice pays off. */
  ghost predicate IsOptimal(pws: Wrappers, maxOutBytes: nat, pwsToMerge: Wrappers) {
    exists sorted :: IsOptimalOf(sorted, pws, maxOutBytes, pwsToMerge)
  }

  ghost predicate IsOptimalOf(sorted: Parts, pws: Wrappers, maxOutBytes: nat, pwsToMerge: Wrappers) {
    SearchOrder(sorted, Headers(pws), maxOutBytes) &&
    if NoChoice(sorted, maxOutBytes) then pwsToMerge == pws
    else IsChoice(sorted, maxOutBytes, Headers(pwsToMerge)) && forall pw :: pw in pwsToMerge ==> pw in pws
  }

  /** What is left when the groups have been taken. */
  ghost function LeftBy(pws: Wrappers, groups: seq<Wrappers>): Wrappers {
    if groups == [] then pws else Removed(LeftBy(pws, groups[..|groups| - 1]), SetOf(groups[|groups| - 1]))
  }

  /** Each group is the best merge of the parts that the groups before it leave. */
  ghost predicate AreOptimal(pws: Wrappers, maxOutBytes: nat, groups: seq<Wrappers>) {
    forall i :: 0 <= i < |groups| ==> IsOptimal(LeftBy(pws, groups[..i]), maxOutBytes, groups[i])
  }

  lemma {:induction false} OneMoreGroup(pws: Wrappers, maxOutBytes: nat, groups: seq<Wrappers>, group: Wrappers)
    requires AreOptimal(pws, maxOutBytes, groups) && IsOptimal(LeftBy(pws, groups), maxOutBytes, group)
    ensures AreOptimal(pws, maxOutBytes, groups + [group])
    ensures LeftBy(pws, groups + [group]) == Removed(LeftBy(pws, groups), SetOf(group))
  {
    assert (groups + [group])[..|groups|] == groups;
    forall i | 0 <= i < |groups| + 1 ensures IsOptimal(LeftBy(pws, (groups + [group])[..i]), maxOutBytes, (groups + [group])[i]) {
      assert i < |groups| ==> (groups + [group])[..i] == groups[..i];
    }
  }

  lemma {:induction false} NothingRemains<T>(xs: seq<T>)
    ensures Removed(xs, SetOf(xs)) == []
  {
    RemovedAsSet(xs, SetOf(xs));
    if Removed(xs, SetOf(xs)) != [] {
      FirstIsElement(Removed(xs, SetOf(xs)));
    }
  }

  lemma {:induction false} FirstIsElement<T>(xs: seq<T>)
    requires xs != []
    ensures SetOf(xs) != {}
  {
    assert xs[0] in SetOf(xs);
  }

  /** Splits the parts into those to merge together and the remaining ones. */
  method GetPartsForOptimalMerge(pws: Wrappers, maxOutBytes: nat) returns (pwsToMerge: Wrappers, pwsRemaining: Wrappers)
    requires ValidParts(pws)
    ensures multiset(pwsToMerge) + multiset(pwsRemaining) == multiset(pws)
    ensures pws != [] ==> pwsToMerge != []
    ensures pwsRemaining != [] ==> 8 <= |pwsToMerge| <= DEFAULT_PARTS_TO_MERGE
    ensures ValidParts(pwsRemaining) && IsOptimal(pws, maxOutBytes, pwsToMerge)
    ensures pwsRemaining == Removed(pws, SetOf(pwsToMerge))
  {
    ghost var sorted;
    pwsToMerge, sorted := ChooseParts(pws, maxOutBytes);
    if |pwsToMerge| == 0 {
      NothingRemains(pws);
      assert IsOptimalOf(sorted, pws, maxOutBytes, pws);
      return pws, [];
    }
    var removed;
    pwsRemaining, removed := RemoveParts(pws, SetOf(pwsToMerge));
    ValidPartsAreDistinct(pws);
    WithoutChosen(pws, pwsToMerge);
    RemovedIsValidParts(pws, SetOf(pwsToMerge));
    if NoChoice(sorted, maxOutBytes) {
      OnlyOneChoice(sorted, maxOutBytes, Headers(pwsToMerge), []);
    }
    assert IsOptimalOf(sorted, pws, maxOutBytes, pwsToMerge);
  }

  lemma {:induction false} GroupTaken<T>(groups: seq<seq<T>>, group: seq<T>, before: seq<T>, rest: seq<T>)
    requires multiset(group) + multiset(rest) == multiset(before)
    ensures AllOf(groups + [group]) + multiset(rest) == AllOf(groups) + multiset(before)
    ensures |group| + |rest| == |before|
  {
    assert |multiset(group) + multiset(rest)| == |multiset(before)|;
    assert (groups + [group])[..|groups|] == groups;
  }

  /** The groups are taken from pws0, and pws is left. */
  ghost predicate IsSplit(pws0: Wrappers, maxOutBytes: nat, groups: seq<Wrappers>, pws: Wrappers) {
    && AllOf(groups) + multiset(pws) == multiset(pws0)
    && (forall i :: 0 <= i < |groups| ==> groups[i] != [])
    && AreOptimal(pws0, maxOutBytes, groups) && pws == LeftBy(pws0, groups)
  }

  lemma {:induction false} SplitMore(pws0: Wrappers, maxOutBytes: nat, groups: seq<Wrappers>, pws: Wrappers, group: Wrappers, rest: Wrappers)
    requires IsSplit(pws0, maxOutBytes, groups, pws) && group != [] && IsOptimal(pws, maxOutBytes, group)
    requires multiset(group) + multiset(rest) == multiset(pws) && rest == Removed(pws, SetOf(group))
    ensures IsSplit(pws0, maxOutBytes, groups + [group], rest) && |rest| < |pws|
  {
    GroupTaken(groups, group, pws, rest);
    OneMoreGroup(pws0, maxOutBytes, groups, group);
  }

  /** Cuts all parts into groups, one merge each. */
  method MustMergePartsToFiles(pws0: Wrappers, maxOutBytes: nat) returns (groups: seq<Wrappers>)
    requires ValidParts(pws0)
    ensures AllOf(groups) == multiset(pws0)
    ensures forall i :: 0 <= i < |groups| ==> groups[i] != []
    ensures AreOptimal(pws0, maxOutBytes, groups)
  {
    var pws := pws0;
    groups := [];
    while |pws| > 0
      invariant ValidParts(pws) && IsSplit(pws0, maxOutBytes, groups, pws)
      decreases |pws|
    {
      var pwsToMerge, pwsRemaining := GetPartsForOptimalMerge(pws, maxOutBytes);
      SplitMore(pws0, maxOutBytes, groups, pws, pwsToMerge, pwsRemaining);
      groups := groups + [pwsToMerge];
      pws := pwsRemaining;
    }
  }

  ghost function AllOf<T>(groups: seq<seq<T>>): multiset<T> {
    if groups == [] then multiset{} else AllOf(groups[..|groups| - 1]) + multiset(groups[|groups| - 1])
  }

  /** Parts to flush: all of them at the end, otherwise those whose deadline has passed. */
  predicate NeedsFlush(pw: PartWrapper, isFinal: bool, currentTime: int) {
    isFinal || pw.flushDeadline < currentTime
  }

  /** Claims exactly the free parts that must go to disk. */
  method ClaimForFlush(pws: Wrappers, isFinal: bool, currentTime: int) returns (claimed: Wrappers)
    requires Distinct(pws)
    modifies pws`isInMerge
    ensures forall pw :: pw in claimed <==> pw in pws && !old(pw.isInMerge) && (isFinal || pw.flushDeadline < currentTime)
    ensures Distinct(claimed)
    ensures forall pw :: pw in pws ==> pw.isInMerge == (old(pw.isInMerge) || pw in claimed)
  {
    claimed := [];
    for i := 0 to |pws|
      invariant forall pw :: pw in claimed <==> pw in pws[..i] && !old(pw.isInMerge) && NeedsFlush(pw, isFinal, currentTime)
      invariant Distinct(claimed)
      invariant forall pw :: pw in pws ==> pw.isInMerge == (old(pw.isInMerge) || pw in claimed)
    {
      var pw := pws[i];
      assert pw !in pws[..i] && pws[..i + 1] == pws[..i] + [pw];
      if !pw.isInMerge && NeedsFlush(pw, isFinal, currentTime) {
        pw.isInMerge := true;
        claimed := claimed + [pw];
      }
    }
    assert pws[..|pws|] == pws;
  }

  /** Takes the claims back; false, which is a panic in the storage, when a claim is missing. */
  method ReleasePartsToMerge(pws: Wrappers) returns (ok: bool)
    modifies pws`isInMerge
    ensures ok == (Distinct(pws) && forall pw :: pw in pws ==> old(pw.isInMerge))
    ensures ok ==> forall pw :: pw in pws ==> !pw.isInMerge
  {
    for i := 0 to |pws|
      invariant Distinct(pws[..i]) && forall pw :: pw in pws[..i] ==> old(pw.isInMerge)
      invariant forall pw :: pw in pws ==> pw.isInMerge == (old(pw.isInMerge) && pw !in pws[..i])
    {
      assert pws[..i + 1] == pws[..i] + [pws[i]];
      if !pws[i].isInMerge {
        if pws[i] in pws[..i] {
          var k :| 0 <= k < i && pws[k] == pws[i];
        }
        return false;
      }
      pws[i].isInMerge := false;
    }
    assert pws[..|pws|] == pws;
    return true;
  }

  /** The earliest deadline of the sources in memory, or `d` if it is earlier. */
  method GetFlushToDiskDeadline(pws: Wrappers, d0: int) returns (d: int)
    ensures d <= d0 && forall pw :: pw in pws && pw.isInmemory ==> d <= pw.flushDeadline
    ensures d == d0 || exists pw :: pw in pws && pw.isInmemory && d == pw.flushDeadline
  {
    d := d0;
    for i := 0 to |pws|
      invariant d <= d0 && forall pw :: pw in pws[..i] && pw.isInmemory ==> d <= pw.flushDeadline
      invariant d == d0 || exists pw :: pw in pws[..i] && pw.isInmemory && d == pw.flushDeadline
    {
      assert pws[..i + 1] == pws[..i] + [pws[i]];
      if pws[i].isInmemory && pws[i].flushDeadline < d {
        d := pws[i].flushDeadline;
        assert pws[i] in pws[..i + 1];
      }
    }
    assert pws[..|pws|] == pws;
  }

  method AreAllInmemoryParts(pws: Wrappers) returns (all: bool)
    ensures all == forall pw :: pw in pws ==> pw.isInmemory
  {
    for i := 0 to |pws|
      invariant forall k :: 0 <= k < i ==> pws[k].isInmemory
    {
      if !pws[i].isInmemory {
        assert pws[i] in pws;
        return false;
      }
    }
    return true;
  }

  /** Files are merged into files, and final merges write files. */
  method GetDstPartType(pws: Wrappers, isFinal: bool, maxSmall: nat, maxInmemory: nat) returns (dst: PL.PartType)
    ensures dst == PL.GetDstPartType(GetCompressedSize(Headers(pws)), forall pw :: pw in pws ==> pw.isInmemory,
                                     isFinal, maxSmall, maxInmemory)
    ensures dst == PL.Big <==> GetCompressedSize(Headers(pws)) > maxSmall
    ensures dst == PL.Inmemory <==> !isFinal && GetCompressedSize(Headers(pws)) <= maxSmall &&
                                    GetCompressedSize(Headers(pws)) <= maxInmemory && forall pw :: pw in pws ==> pw.isInmemory
  {
    var dstPartSize := SumCompressedSize(Headers(pws));
    if dstPartSize > maxSmall {
      return PL.Big;
    }
    if isFinal || dstPartSize > maxInmemory {
      return PL.Small;
    }
    var all := AreAllInmemoryParts(pws);
    if !all {
      return PL.Small;
    }
    return PL.Inmemory;
  }

  // ---------- The lists ----------

  class Datadb {
    var inmemoryParts: Wrappers
    var smallParts: Wrappers
    var bigParts: Wrappers
    /** The names in parts.json. */
    var partNames: seq<nat>

    constructor ()
      ensures inmemoryParts == [] && smallParts == [] && bigParts == [] && partNames == [] && Valid()
    {
      inmemoryParts, smallParts, bigParts, partNames := [], [], [], [];
    }

    ghost predicate Listed(pw: PartWrapper)
      reads this
    {
      pw in inmemoryParts || pw in smallParts || pw in bigParts
    }

    /** Every part is on one list, once; parts.json names the parts in files. */
    ghost predicate Valid()
      reads this
    {
      && ValidLists(inmemoryParts, smallParts, bigParts)
      && multiset(partNames) == multiset(FileNames(smallParts)) + multiset(FileNames(bigParts))
    }

    /** Takes the sources off the lists, puts the result on its list and stores the names. Then
        it gives up the references of the lists. It fails, which is a panic in the storage, when a
        source is repeated or not listed. */
    method SwapSrcWithDstParts(pws: Wrappers, pwNew: PartWrapper?, dstPartType: PL.PartType)
      returns (ok: bool, deletedNames: seq<nat>)
      requires Valid() && forall pw :: pw in pws ==> pw.isOpen
      requires pwNew != null ==> !Listed(pwNew) && pwNew.isInmemory == (dstPartType == PL.Inmemory)
      modifies this, pws`mustDrop, pws`refCount, pws`isOpen
      ensures ok == (Distinct(pws) && forall i :: 0 <= i < |pws| ==> old(Listed(pws[i])))
      ensures ok ==> Valid() && IsSwapped(old(inmemoryParts), old(smallParts), old(bigParts), pws, pwNew, dstPartType)
      ensures ok ==> forall pw :: pw in pws ==>
                pw.mustDrop && pw.refCount == old(pw.refCount) - 1 && pw.isOpen == (pw.refCount > 0)
      ensures ok ==> forall n :: n in deletedNames <==> exists pw :: pw in pws && !pw.isOpen && !pw.isInmemory && pw.name == n
    {
      ok := SwapLists(pws, pwNew, dstPartType);
      if !ok {
        return false, [];
      }
      deletedNames := DropParts(pws);
    }

    /** The part of a swap that runs under the lock. */
    method SwapLists(pws: Wrappers, pwNew: PartWrapper?, dstPartType: PL.PartType) returns (ok: bool)
      requires Valid()
      requires pwNew != null ==> !Listed(pwNew) && pwNew.isInmemory == (dstPartType == PL.Inmemory)
      modifies this
      ensures ok == (Distinct(pws) && forall i :: 0 <= i < |pws| ==> old(Listed(pws[i])))
      ensures ok ==> Valid() && IsSwapped(old(inmemoryParts), old(smallParts), old(bigParts), pws, pwNew, dstPartType)
    {
      var partsToRemove := SetOf(pws);
      SizeOfSetOf(pws);
      if |partsToRemove| != |pws| {
        return false;
      }
      CountsAgree(inmemoryParts, smallParts, bigParts, pws);
      SwapIsValid(inmemoryParts, smallParts, bigParts, partsToRemove, pwNew, dstPartType);
      var removedInmemory, removedFiles := RemoveFromLists(partsToRemove);
      ok := removedInmemory + removedFiles == |partsToRemove|;
      AddToList(pwNew, dstPartType);
      if removedFiles > 0 || (pwNew != null && dstPartType != PL.Inmemory) {
        WriteNames();
      }
    }

    /** The names of the files go to parts.json. */
    method WriteNames()
      modifies this`partNames
      ensures multiset(partNames) == multiset(FileNames(smallParts)) + multiset(FileNames(bigParts))
    {
      var smallPartNames := GetPartNames(smallParts);
      var bigPartNames := GetPartNames(bigParts);
      partNames := smallPartNames + bigPartNames;
    }

    method RemoveFromLists(partsToRemove: set<PartWrapper>) returns (removedInmemory: nat, removedFiles: nat)
      modifies this`inmemoryParts, this`smallParts, this`bigParts
      ensures inmemoryParts == Removed(old(inmemoryParts), partsToRemove)
      ensures smallParts == Removed(old(smallParts), partsToRemove) && bigParts == Removed(old(bigParts), partsToRemove)
      ensures removedInmemory == old(|inmemoryParts|) - |inmemoryParts|
      ensures removedFiles == (old(|smallParts|) - |smallParts|) + (old(|bigParts|) - |bigParts|)
    {
      var removedSmall, removedBig;
      inmemoryParts, removedInmemory := RemoveParts(inmemoryParts, partsToRemove);
      smallParts, removedSmall := RemoveParts(smallParts, partsToRemove);
      bigParts, removedBig := RemoveParts(bigParts, partsToRemove);
      removedFiles := removedSmall + removedBig;
    }

    method AddToList(pwNew: PartWrapper?, dst: PL.PartType)
      modifies this`inmemoryParts, this`smallParts, this`bigParts
      ensures inmemoryParts == old(inmemoryParts) + NewPart(pwNew, dst, PL.Inmemory)
      ensures smallParts == old(smallParts) + NewPart(pwNew, dst, PL.Small)
      ensures bigParts == old(bigParts) + NewPart(pwNew, dst, PL.Big)
      ensures pwNew == null || dst == PL.Inmemory ==> smallParts == old(smallParts) && bigParts == old(bigParts)
    {
      if pwNew != null {
        match dst
        case Inmemory => inmemoryParts := inmemoryParts + [pwNew];
        case Small => smallParts := smallParts + [pwNew];
        case Big => bigParts := bigParts + [pwNew];
      }
    }

    /** What the lists are after a swap. */
    ghost predicate IsSwapped(inmemory: Wrappers, small: Wrappers, big: Wrappers, pws: Wrappers,
                              pwNew: PartWrapper?, dst: PL.PartType)
      reads this
    {
      && inmemoryParts == Removed(inmemory, SetOf(pws)) + NewPart(pwNew, dst, PL.Inmemory)
      && smallParts == Removed(small, SetOf(pws)) + NewPart(pwNew, dst, PL.Small)
      && bigParts == Removed(big, SetOf(pws)) + NewPart(pwNew, dst, PL.Big)
    }
  }

  ghost predicate ValidLists(inmemory: Wrappers, small: Wrappers, big: Wrappers) {
    && Distinct(inmemory) && Distinct(small) && Distinct(big)
    && (forall i :: 0 <= i < |inmemory| ==> inmemory[i].isInmemory)
    && (forall i :: 0 <= i < |small| ==> !small[i].isInmemory)
    && (forall i :: 0 <= i < |big| ==> !big[i].isInmemory)
    && (forall i :: 0 <= i < |small| ==> small[i] !in big)
  }

  lemma {:induction false} RemovedIsValid(inmemory: Wrappers, small: Wrappers, big: Wrappers, drop: set<PartWrapper>)
    requires ValidLists(inmemory, small, big)
    ensures ValidLists(Removed(inmemory, drop), Removed(small, drop), Removed(big, drop))
  {
    RemovedElements(inmemory, drop);
    RemovedElements(small, drop);
    RemovedElements(big, drop);
    var i', s', b' := Removed(inmemory, drop), Removed(small, drop), Removed(big, drop);
    forall i | 0 <= i < |i'| ensures i'[i].isInmemory {
      assert i'[i] in inmemory;
    }
    forall i | 0 <= i < |b'| ensures !b'[i].isInmemory {
      assert b'[i] in big;
    }
    forall i | 0 <= i < |s'| ensures !s'[i].isInmemory && s'[i] !in b' {
      assert s'[i] in small;
    }
  }

  lemma {:induction false} AddedIsValid(inmemory: Wrappers, small: Wrappers, big: Wrappers, pwNew: PartWrapper?, dst: PL.PartType)
    requires ValidLists(inmemory, small, big)
    requires pwNew != null ==>
               && pwNew !in inmemory && pwNew !in small && pwNew !in big
               && pwNew.isInmemory == (dst == PL.Inmemory)
    ensures ValidLists(inmemory + NewPart(pwNew, dst, PL.Inmemory), small + NewPart(pwNew, dst, PL.Small),
                       big + NewPart(pwNew, dst, PL.Big))
  {
  }

  /** A swap keeps the lists valid; without a change to the files the names stay right. */
  lemma {:induction false} SwapIsValid(inmemory: Wrappers, small: Wrappers, big: Wrappers, drop: set<PartWrapper>,
                    pwNew: PartWrapper?, dst: PL.PartType)
    requires ValidLists(inmemory, small, big)
    requires pwNew != null ==>
               && pwNew !in inmemory && pwNew !in small && pwNew !in big
               && pwNew.isInmemory == (dst == PL.Inmemory)
    ensures ValidLists(Removed(inmemory, drop) + NewPart(pwNew, dst, PL.Inmemory),
                       Removed(small, drop) + NewPart(pwNew, dst, PL.Small), Removed(big, drop) + NewPart(pwNew, dst, PL.Big))
    ensures |Removed(small, drop)| == |small| ==> Removed(small, drop) == small
    ensures |Removed(big, drop)| == |big| ==> Removed(big, drop) == big
  {
    RemovedIsValid(inmemory, small, big, drop);
    RemovedElements(inmemory, drop);
    RemovedElements(small, drop);
    RemovedElements(big, drop);
    RemovedNothing(small, drop);
    RemovedNothing(big, drop);
    AddedIsValid(Removed(inmemory, drop), Removed(small, drop), Removed(big, drop), pwNew, dst);
  }

  /** The panic of a swap: some source was not on a list. */
  lemma {:induction false} CountsAgree(inmemory: Wrappers, small: Wrappers, big: Wrappers, pws: Wrappers)
    requires ValidLists(inmemory, small, big)
    ensures var drop := SetOf(pws);
            (|inmemory| - |Removed(inmemory, drop)|) + (|small| - |Removed(small, drop)|) + (|big| - |Removed(big, drop)|)
            == |drop|
            <==> forall i :: 0 <= i < |pws| ==> pws[i] in inmemory || pws[i] in small || pws[i] in big
  {
    assert forall x :: x in SetOf(inmemory) ==> x.isInmemory;
    assert forall x :: x in SetOf(small) ==> !x.isInmemory;
    assert forall x :: x in SetOf(big) ==> !x.isInmemory;
    assert SetOf(small) * SetOf(big) == {};
    RemovedFromThree(inmemory, small, big, SetOf(pws));
    assert forall i :: 0 <= i < |pws| ==> pws[i] in SetOf(pws);
  }

  lemma {:induction false} RemovedNothing<T>(xs: seq<T>, drop: set<T>)
    ensures |Removed(xs, drop)| == |xs| ==> Removed(xs, drop) == xs
  {
    if xs != [] {
      RemovedNothing(xs[..|xs| - 1], drop);
      assert xs == xs[..|xs| - 1] + [xs[|xs| - 1]];
    }
  }

  function NewPart(pwNew: PartWrapper?, dst: PL.PartType, list: PL.PartType): Wrappers {
    if pwNew != null && dst == list then [pwNew] else []
  }

  /** Gives up the references of the lists; the parts nobody reads are deleted. */
  method DropParts(pws: Wrappers) returns (deletedNames: seq<nat>)
    requires Distinct(pws) && forall pw :: pw in pws ==> pw.isOpen
    modifies pws`mustDrop, pws`refCount, pws`isOpen
    ensures forall pw :: pw in pws ==>
              pw.mustDrop && pw.refCount == old(pw.refCount) - 1 && pw.isOpen == (pw.refCount > 0)
    ensures forall n :: n in deletedNames <==> exists pw :: pw in pws && !pw.isOpen && !pw.isInmemory && pw.name == n
  {
    deletedNames := [];
    for i := 0 to |pws|
      invariant forall k :: 0 <= k < |pws| ==>
                  if k < i then Dropped(pws[k], old(pws[k].refCount))
                  else pws[k].isOpen && pws[k].refCount == old(pws[k].refCount)
      invariant forall n :: n in deletedNames <==>
                  exists k :: 0 <= k < i && !pws[k].isOpen && !pws[k].isInmemory && pws[k].name == n
    {
      pws[i].mustDrop := true;
      var deleted := pws[i].DecRef();
      if deleted {
        deletedNames := deletedNames + [pws[i].name];
      }
    }
  }

  ghost predicate Dropped(pw: PartWrapper, refCount: int)
    reads pw
  {
    pw.mustDrop && pw.refCount == refCount - 1 && pw.isOpen == (pw.refCount > 0)
  }

  function FileNames(pws: Wrappers): seq<nat> {
    if pws == [] then []
    else
      var rest := FileNames(pws[..|pws| - 1]);
      if pws[|pws| - 1].isInmemory then rest else rest + [pws[|pws| - 1].name]
  }

  predicate NameLeq(a: nat, b: nat) {
    a <= b
  }

  method GetPartNames(pws: Wrappers) returns (names: seq<nat>)
    ensures multiset(names) == multiset(FileNames(pws)) && SortedBy(names, NameLeq)
  {
    var partNames := [];
    for i := 0 to |pws|
      invariant partNames == FileNames(pws[..i])
    {
      assert pws[..i + 1][..i] == pws[..i];
      if !pws[i].isInmemory {
        partNames := partNames + [pws[i].name];
      }
    }
    assert pws[..|pws|] == pws;
    names := Sort(partNames, NameLeq);
  }

  method RemoveParts(pws: Wrappers, partsToRemove: set<PartWrapper>) returns (dst: Wrappers, removed: nat)
    ensures dst == Removed(pws, partsToRemove) && removed == |pws| - |dst|
  {
    dst := [];
    for i := 0 to |pws|
      invariant dst == Removed(pws[..i], partsToRemove)
    {
      assert pws[..i + 1][..i] == pws[..i];
      if pws[i] !in partsToRemove {
        dst := dst + [pws[i]];
      }
    }
    assert pws[..|pws|] == pws;
    removed := |pws| - |dst|;
  }
}
