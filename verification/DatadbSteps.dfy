/** The sections of Datadb take the steps of PartLifecycle: what holds over its runs holds for the lists and the parts. */
module DatadbSteps {
  import opened Maps
  import opened PartSelection
  import opened D = Datadb
  import PL = PartLifecycle

  /** The numbers of the parts. */
  type Ids = map<PartWrapper, PL.PartId>

  ghost predicate Injective(ids: Ids) {
    forall pw {:trigger IsOnly(ids, pw)} :: pw in ids ==> IsOnly(ids, pw)
  }

  ghost predicate IsOnly(ids: Ids, pw: PartWrapper)
    requires pw in ids
  {
    forall other :: other in ids && ids[other] == ids[pw] ==> other == pw
  }

  ghost function IdsOf(ids: Ids, pws: Wrappers): set<PL.PartId> {
    set pw | pw in pws && pw in ids :: ids[pw]
  }

  /** The fields of a part that change. */
  datatype Flags = Flags(refCount: int, isOpen: bool, mustDrop: bool, isInMerge: bool)

  ghost function FlagsOf(pws: set<PartWrapper>): (flags: map<PartWrapper, Flags>)
    reads pws
    ensures flags.Keys == pws
    ensures forall pw :: pw in pws ==> flags[pw] == Flags(pw.refCount, pw.isOpen, pw.mustDrop, pw.isInMerge)
  {
    if pws == {} then map[]
    else
      var pw :| pw in pws;
      FlagsOf(pws - {pw})[pw := Flags(pw.refCount, pw.isOpen, pw.mustDrop, pw.isInMerge)]
  }

  datatype Lists = Lists(inmemory: Wrappers, small: Wrappers, big: Wrappers)

  function ListsOf(db: D.Datadb): Lists
    reads db
  {
    Lists(db.inmemoryParts, db.smallParts, db.bigParts)
  }

  /** The state shows the part, open or closed. */
  ghost predicate ShowsPart(pw: PartWrapper, flags: Flags, p: PL.PartId, s: PL.State) {
    && p in s.parts && p in s.refCount
    && s.refCount[p] == flags.refCount && flags.isOpen == (flags.refCount > 0)
    && (p in s.mustDrop <==> flags.mustDrop)
    && (p in s.isInMerge <==> flags.isInMerge)
    && IsPart(pw, s.parts[p])
  }

  ghost predicate IsPart(pw: PartWrapper, part: PL.Part) {
    if pw.isInmemory then part.partType == PL.Inmemory && part.flushDeadline == pw.flushDeadline
    else part.IsFile() && part.name == pw.name
  }

  ghost predicate ShowsParts(ids: Ids, flags: map<PartWrapper, Flags>, s: PL.State) {
    Injective(ids) && flags.Keys == ids.Keys && forall pw :: pw in ids ==> ShowsPart(pw, flags[pw], ids[pw], s)
  }

  ghost predicate ShowsLists(lists: Lists, ids: Ids, s: PL.State) {
    && AllIn(lists.inmemory, ids) && AllIn(lists.small, ids) && AllIn(lists.big, ids)
    && s.inmemoryParts == IdsOf(ids, lists.inmemory)
    && s.smallParts == IdsOf(ids, lists.small)
    && s.bigParts == IdsOf(ids, lists.big)
  }

  ghost predicate AllIn(pws: Wrappers, ids: Ids) {
    forall i :: 0 <= i < |pws| ==> pws[i] in ids
  }

  // ---------- Steps ----------

  /** The steps lead from w to w', one after the other; defined by the last step. */
  ghost predicate Chain<W(!new), S>(next: (W, S, W) -> bool, w: W, steps: seq<S>, w': W)
    decreases |steps|
  {
    if steps == [] then w == w'
    else
      var n := |steps| - 1;
      exists v :: Chain(next, w, steps[..n], v) && next(v, steps[n], w')
  }

  lemma {:induction false} LongerChain<W(!new), S>(next: (W, S, W) -> bool, w: W, steps: seq<S>, v: W, step: S, w': W)
    requires Chain(next, w, steps, v) && next(v, step, w')
    ensures Chain(next, w, steps + [step], w')
  {
    assert (steps + [step])[..|steps|] == steps;
  }

  lemma {:induction false} JoinedChains<W(!new), S>(next: (W, S, W) -> bool, w: W, steps: seq<S>, w': W, more: seq<S>, w'': W)
    requires Chain(next, w, steps, w') && Chain(next, w', more, w'')
    ensures Chain(next, w, steps + more, w'')
    decreases |more|
  {
    if more == [] {
      assert steps + more == steps;
    } else {
      var n := |more| - 1;
      var v :| Chain(next, w', more[..n], v) && next(v, more[n], w'');
      JoinedChains(next, w, steps, w', more[..n], v);
      LongerChain(next, w, steps + more[..n], v, more[n], w'');
      assert steps + more == steps + more[..n] + [more[n]];
    }
  }

  ghost predicate IsStep(w: PL.World, step: PL.Step, w': PL.World) {
    PL.Enabled(w, step) && PL.Apply(w, step) == w'
  }

  /** The steps lead from one world to the other. */
  ghost predicate Lead(w: PL.World, steps: seq<PL.Step>, w': PL.World) {
    Chain(IsStep, w, steps, w')
  }

  lemma {:induction false} OneStep(w: PL.World, step: PL.Step, w': PL.World)
    requires IsStep(w, step, w')
    ensures Lead(w, [step], w')
  {
    LongerChain(IsStep, w, [], w, step, w');
    assert [] + [step] == [step];
  }

  lemma {:induction false} MoreSteps(w: PL.World, steps: seq<PL.Step>, w': PL.World, more: seq<PL.Step>, w'': PL.World)
    requires Lead(w, steps, w') && Lead(w', more, w'')
    ensures Lead(w, steps + more, w'')
  {
    JoinedChains(IsStep, w, steps, w', more, w'');
  }

  /** It holds for an empty disk and is kept by every step. */
  ghost predicate IsKept(p: PL.World -> bool) {
    p(PL.Down(map[], {}, map[])) && forall w, step, w' :: p(w) && IsStep(w, step, w') ==> p(w')
  }

  /** The state can be reached from an empty disk: it has everything that steps keep. */
  ghost predicate Reachable(s: PL.State) {
    forall p: PL.World -> bool :: IsKept(p) ==> p(PL.Up(s))
  }

  lemma {:induction false} KeptOverSteps(p: PL.World -> bool, w: PL.World, steps: seq<PL.Step>, w': PL.World)
    requires IsKept(p) && p(w) && Lead(w, steps, w')
    ensures p(w')
    decreases |steps|
  {
    if steps != [] {
      var n := |steps| - 1;
      var v :| Chain(IsStep, w, steps[..n], v) && IsStep(v, steps[n], w');
      KeptOverSteps(p, w, steps[..n], v);
    }
  }

  lemma {:induction false} StaysReachable(s: PL.State, steps: seq<PL.Step>, s': PL.State)
    requires Reachable(s) && Lead(PL.Up(s), steps, PL.Up(s'))
    ensures Reachable(s')
  {
    forall p: PL.World -> bool | IsKept(p) ensures p(PL.Up(s')) {
      KeptOverSteps(p, PL.Up(s), steps, PL.Up(s'));
    }
  }

  /** What steps lead to can be reached ... */
  lemma {:induction false} LeadIsReachable(steps: seq<PL.Step>, s: PL.State)
    requires Lead(PL.Down(map[], {}, map[]), steps, PL.Up(s))
    ensures Reachable(s)
  {
    forall p: PL.World -> bool | IsKept(p) ensures p(PL.Up(s)) {
      KeptOverSteps(p, PL.Down(map[], {}, map[]), steps, PL.Up(s));
    }
  }

  ghost predicate HasSteps(w: PL.World) {
    exists steps :: Lead(PL.Down(map[], {}, map[]), steps, w)
  }

  /** ... and there are steps to whatever can be reached. */
  lemma {:induction false} ReachableHasSteps(s: PL.State) returns (steps: seq<PL.Step>)
    requires Reachable(s)
    ensures Lead(PL.Down(map[], {}, map[]), steps, PL.Up(s))
  {
    var empty := PL.Down(map[], {}, map[]);
    assert Lead(empty, [], empty);
    forall w, step, w' | HasSteps(w) && IsStep(w, step, w') ensures HasSteps(w') {
      var before :| Lead(empty, before, w);
      LongerChain(IsStep, empty, before, w, step, w');
      assert Lead(empty, before + [step], w');
    }
    assert IsKept(HasSteps);
    steps :| Lead(empty, steps, PL.Up(s));
  }

  lemma {:induction false} ReachableIsSafe(s: PL.State)
    requires Reachable(s)
    ensures PL.Inv(s)
  {
    InvIsKept();
    UpIsSafe(s);
  }

  ghost predicate IsSafe(w: PL.World) {
    PL.WorldInv(w)
  }

  lemma {:induction false} InvIsKept()
    ensures IsKept(IsSafe)
  {
    forall w, step, w' | IsSafe(w) && IsStep(w, step, w') ensures IsSafe(w') {
      PL.StepKeeps(w, step);
    }
  }

  lemma {:induction false} UpIsSafe(s: PL.State)
    requires PL.WorldInv(PL.Up(s))
    ensures PL.Inv(s)
  {
  }

  /** A run goes on with such steps, so whatever holds over runs holds afterwards. */
  lemma {:induction false} LeadIsRun(worlds: seq<PL.World>, steps: seq<PL.Step>, more: seq<PL.Step>, w: PL.World) returns (worlds': seq<PL.World>)
    requires PL.IsRun(worlds, steps) && Lead(worlds[|steps|], more, w)
    ensures PL.IsRun(worlds', steps + more) && worlds <= worlds' && worlds'[|steps + more|] == w
    decreases |more|
  {
    if more == [] {
      worlds' := worlds;
      assert steps + more == steps;
    } else {
      var n := |more| - 1;
      var v :| Chain(IsStep, worlds[|steps|], more[..n], v) && IsStep(v, more[n], w);
      worlds' := LeadIsRun(worlds, steps, more[..n], v);
      worlds' := RunWithStep(worlds', steps + more[..n], more[n], w);
      assert steps + more == steps + more[..n] + [more[n]];
    }
  }

  lemma {:induction false} RunWithStep(worlds: seq<PL.World>, steps: seq<PL.Step>, step: PL.Step, w: PL.World) returns (worlds': seq<PL.World>)
    requires PL.IsRun(worlds, steps) && IsStep(worlds[|steps|], step, w)
    ensures PL.IsRun(worlds', steps + [step]) && worlds' == worlds + [w]
  {
    worlds' := worlds + [w];
    var steps' := steps + [step];
    forall i | 0 <= i < |steps'| ensures PL.Enabled(worlds'[i], steps'[i]) && worlds'[i + 1] == PL.Apply(worlds'[i], steps'[i]) {
      if i < |steps| {
        assert worlds'[i] == worlds[i] && steps'[i] == steps[i] && worlds'[i + 1] == worlds[i + 1];
      }
    }
  }

  // ---------- What the state shows ----------

  ghost predicate Shows(db: D.Datadb, ids: Ids, s: PL.State)
    reads db, ids.Keys
  {
    ShowsParts(ids, FlagsOf(ids.Keys), s) && ShowsLists(ListsOf(db), ids, s) && db.Valid() && Reachable(s)
  }

  /** Opening an empty directory. */
  method MustOpenDatadb(ghost mergeIdx: PL.Name) returns (db: D.Datadb, ghost ids: Ids, ghost s: PL.State)
    ensures fresh(db) && ids == map[] && !s.closing && s.merges == map[]
    ensures Lead(PL.Down(map[], {}, map[]), [PL.Reopen(mergeIdx, {})], PL.Up(s))
    ensures Shows(db, ids, s)
  {
    db := new D.Datadb();
    ids := map[];
    s := PL.Opened(map[], {}, map[], mergeIdx, {});
    OneStep(PL.Down(map[], {}, map[]), PL.Reopen(mergeIdx, {}), PL.Up(s));
    LeadIsReachable([PL.Reopen(mergeIdx, {})], s);
  }

  lemma {:induction false} HasId(ids: Ids, pws: Wrappers, pw: PartWrapper)
    requires Injective(ids) && pw in ids
    ensures ids[pw] in IdsOf(ids, pws) <==> pw in pws
  {
    assert IsOnly(ids, pw);
  }

  // ---------- Claims ----------

  ghost function OwnedBy(m: PL.MergeId, ps: set<PL.PartId>): (owners: map<PL.PartId, PL.MergeId>)
    ensures owners.Keys == ps && forall p :: p in ps ==> owners[p] == m
  {
    Tabulate(ps, p => m)
  }

  /** The merges m, m + 1, ... work on one group each. */
  ghost function SourcesOf(ids: Ids, m: PL.MergeId, groups: seq<Wrappers>): map<PL.MergeId, set<PL.PartId>> {
    if groups == [] then map[]
    else
      var n := |groups| - 1;
      SourcesOf(ids, m, groups[..n])[m + n := IdsOf(ids, groups[n])]
  }

  ghost function OwnersOf(ids: Ids, m: PL.MergeId, groups: seq<Wrappers>): map<PL.PartId, PL.MergeId> {
    if groups == [] then map[]
    else
      var n := |groups| - 1;
      OwnersOf(ids, m, groups[..n]) + OwnedBy(m + n, IdsOf(ids, groups[n]))
  }

  ghost predicate InGroup(groups: seq<Wrappers>, i: nat, pw: PartWrapper) {
    i < |groups| && pw in groups[i]
  }

  /** No part is in two groups. */
  ghost predicate AreDisjoint(groups: seq<Wrappers>) {
    forall pw :: pw in AllOf(groups) ==> AllOf(groups)[pw] == 1
  }

  ghost predicate AllGroupsIn(groups: seq<Wrappers>, ids: Ids) {
    forall i :: 0 <= i < |groups| ==> AllIn(groups[i], ids)
  }

  /** The groups hold exactly the claimed parts. */
  ghost predicate AreGroupsOf(groups: seq<Wrappers>, claimed: Wrappers) {
    && AreDisjoint(groups)
    && (forall pw :: pw in AllOf(groups) ==> pw in claimed)
    && forall pw :: pw in claimed ==> pw in AllOf(groups)
  }

  lemma {:induction false} SourcesOfGroups(ids: Ids, m: PL.MergeId, groups: seq<Wrappers>)
    ensures forall k :: k in SourcesOf(ids, m, groups) <==> m <= k < m + |groups|
    ensures forall i :: 0 <= i < |groups| ==> SourcesOf(ids, m, groups)[m + i] == IdsOf(ids, groups[i])
  {
    if groups != [] {
      SourcesOfGroups(ids, m, groups[..|groups| - 1]);
    }
  }

  lemma {:induction false} FrontIsDisjoint(groups: seq<Wrappers>, ids: Ids)
    requires AreDisjoint(groups) && AllGroupsIn(groups, ids) && groups != []
    ensures AreDisjoint(groups[..|groups| - 1]) && AllGroupsIn(groups[..|groups| - 1], ids)
  {
    assert AllOf(groups[..|groups| - 1]) <= AllOf(groups);
  }

  lemma {:induction false} GroupElement(groups: seq<Wrappers>, pw: PartWrapper)
    ensures pw in AllOf(groups) <==> exists i: nat :: InGroup(groups, i, pw)
  {
    if groups != [] {
      var n := |groups| - 1;
      GroupElement(groups[..n], pw);
      if pw in AllOf(groups[..n]) {
        var i: nat :| InGroup(groups[..n], i, pw);
        assert InGroup(groups, i, pw);
      }
      if pw in groups[n] {
        assert InGroup(groups, n, pw);
      }
      if i: nat :| InGroup(groups, i, pw) && i < n {
        assert InGroup(groups[..n], i, pw);
      }
    }
  }

  lemma {:induction false} OnlyOneGroup(groups: seq<Wrappers>, pw: PartWrapper, i: nat, n: nat)
    requires AreDisjoint(groups) && n == |groups| - 1 && i < n && InGroup(groups, i, pw)
    ensures !InGroup(groups, n, pw)
  {
    GroupElement(groups[..n], pw);
    assert InGroup(groups[..n], i, pw);
    assert AllOf(groups)[pw] == AllOf(groups[..n])[pw] + multiset(groups[n])[pw];
  }

  /** A part belongs to the merge of its group. */
  lemma {:induction false} OwnerOfGroup(ids: Ids, m: PL.MergeId, groups: seq<Wrappers>, i: nat, pw: PartWrapper)
    requires Injective(ids) && AreDisjoint(groups) && AllGroupsIn(groups, ids) && InGroup(groups, i, pw)
    ensures ids[pw] in OwnersOf(ids, m, groups) && OwnersOf(ids, m, groups)[ids[pw]] == m + i
    decreases |groups|
  {
    var n := |groups| - 1;
    assert pw in ids;
    HasId(ids, groups[n], pw);
    if i < n {
      OnlyOneGroup(groups, pw, i, n);
      FrontIsDisjoint(groups, ids);
      assert InGroup(groups[..n], i, pw);
      OwnerOfGroup(ids, m, groups[..n], i, pw);
    }
  }

  /** Only parts of the groups have owners. */
  lemma {:induction false} OwnedIsInGroup(ids: Ids, m: PL.MergeId, groups: seq<Wrappers>, p: PL.PartId) returns (i: nat, pw: PartWrapper)
    requires p in OwnersOf(ids, m, groups)
    ensures InGroup(groups, i, pw) && pw in ids && ids[pw] == p
    decreases |groups|
  {
    var n := |groups| - 1;
    if p in IdsOf(ids, groups[n]) {
      pw :| pw in groups[n] && pw in ids && ids[pw] == p;
      i := n;
    } else {
      i, pw := OwnedIsInGroup(ids, m, groups[..n], p);
    }
  }

  lemma {:induction false} GroupsAreGrouped(ids: Ids, m: PL.MergeId, groups: seq<Wrappers>)
    requires Injective(ids) && AreDisjoint(groups) && AllGroupsIn(groups, ids)
    ensures PL.Grouped(SourcesOf(ids, m, groups), OwnersOf(ids, m, groups))
  {
    var sources, owners := SourcesOf(ids, m, groups), OwnersOf(ids, m, groups);
    SourcesOfGroups(ids, m, groups);
    forall k, p | k in sources && p in sources[k] ensures p in owners && owners[p] == k {
      assert sources[m + (k - m)] == IdsOf(ids, groups[k - m]);
      var pw :| pw in groups[k - m] && pw in ids && ids[pw] == p;
      OwnerOfGroup(ids, m, groups, k - m, pw);
    }
    forall p | p in owners ensures owners[p] in sources && p in sources[owners[p]] {
      var i, pw := OwnedIsInGroup(ids, m, groups, p);
      OwnerOfGroup(ids, m, groups, i, pw);
      assert sources[m + i] == IdsOf(ids, groups[i]);
    }
  }

  lemma {:induction false} OwnedAreClaimed(ids: Ids, m: PL.MergeId, groups: seq<Wrappers>, claimed: Wrappers)
    requires Injective(ids) && AllGroupsIn(groups, ids) && AreGroupsOf(groups, claimed) && AllIn(claimed, ids)
    ensures OwnersOf(ids, m, groups).Keys == IdsOf(ids, claimed)
  {
    forall p | p in OwnersOf(ids, m, groups) ensures p in IdsOf(ids, claimed) {
      var i, pw := OwnedIsInGroup(ids, m, groups, p);
      GroupElement(groups, pw);
    }
    forall p | p in IdsOf(ids, claimed) ensures p in OwnersOf(ids, m, groups) {
      var pw :| pw in claimed && pw in ids && ids[pw] == p;
      GroupElement(groups, pw);
      var i: nat :| InGroup(groups, i, pw);
      OwnerOfGroup(ids, m, groups, i, pw);
    }
  }

  ghost function ClaimStep(ids: Ids, m: PL.MergeId, groups: seq<Wrappers>, isFinal: bool): PL.Step {
    PL.Claim(SourcesOf(ids, m, groups), OwnersOf(ids, m, groups), isFinal)
  }

  ghost function Claimed(ids: Ids, s: PL.State, m: PL.MergeId, groups: seq<Wrappers>, isFinal: bool): PL.State {
    PL.DoClaim(s, SourcesOf(ids, m, groups), OwnersOf(ids, m, groups), isFinal)
  }

  /** The merges do not exist yet. */
  ghost predicate AreNewMerges(s: PL.State, m: PL.MergeId) {
    forall k :: k in s.merges ==> k < m
  }

  /** There are always numbers for new merges. */
  lemma {:induction false} NewMerge(ms: set<PL.MergeId>) returns (m: PL.MergeId)
    ensures forall k :: k in ms ==> k < m
    decreases |ms|
  {
    if ms == {} {
      m := 0;
    } else {
      var k :| k in ms;
      var rest := NewMerge(ms - {k});
      m := if k < rest then rest else k + 1;
      forall i | i in ms ensures i < m {
        assert i == k || i in ms - {k};
      }
    }
  }

  lemma {:induction false} NewMergesExist(s: PL.State) returns (m: PL.MergeId)
    ensures AreNewMerges(s, m)
  {
    m := NewMerge(s.merges.Keys);
  }

  lemma {:induction false} GroupsAreClaimable(ids: Ids, s: PL.State, m: PL.MergeId, groups: seq<Wrappers>, claimed: Wrappers)
    requires Injective(ids) && AllGroupsIn(groups, ids) && AreGroupsOf(groups, claimed) && AllIn(claimed, ids) && AreNewMerges(s, m)
    requires IdsOf(ids, claimed) <= PL.Listed(s) && IdsOf(ids, claimed) !! s.isInMerge
    ensures PL.Claimable(s, SourcesOf(ids, m, groups), OwnersOf(ids, m, groups))
  {
    GroupsAreGrouped(ids, m, groups);
    SourcesOfGroups(ids, m, groups);
    OwnedAreClaimed(ids, m, groups, claimed);
  }

  lemma {:induction false} FreeParts(ids: Ids, flags: map<PartWrapper, Flags>, s: PL.State, pws: Wrappers, claimed: Wrappers)
    requires ShowsParts(ids, flags, s) && AllIn(pws, ids) && IdsOf(ids, pws) <= PL.Listed(s)
    requires forall pw :: pw in claimed ==> pw in pws && pw in flags && !flags[pw].isInMerge
    ensures IdsOf(ids, claimed) <= PL.Listed(s) && IdsOf(ids, claimed) !! s.isInMerge
  {
    forall pw | pw in claimed
      ensures ids[pw] !in s.isInMerge
    {
      assert ShowsPart(pw, flags[pw], ids[pw], s);
    }
  }

  ghost predicate AreClaimed(flags: map<PartWrapper, Flags>, flags': map<PartWrapper, Flags>, claimed: Wrappers) {
    flags'.Keys == flags.Keys && forall pw :: pw in flags ==> flags'[pw] == flags[pw].(isInMerge := flags[pw].isInMerge || pw in claimed)
  }

  lemma {:induction false} MarksAreShown(ids: Ids, flags: map<PartWrapper, Flags>, flags': map<PartWrapper, Flags>, s: PL.State,
                                         claimed: Wrappers, s': PL.State)
    requires ShowsParts(ids, flags, s) && AreClaimed(flags, flags', claimed)
    requires s'.parts == s.parts && s'.refCount == s.refCount && s'.mustDrop == s.mustDrop
    requires s'.isInMerge == s.isInMerge + IdsOf(ids, claimed)
    ensures ShowsParts(ids, flags', s')
  {
    forall pw | pw in ids
      ensures ShowsPart(pw, flags'[pw], ids[pw], s')
    {
      HasId(ids, claimed, pw);
      assert ShowsPart(pw, flags[pw], ids[pw], s);
    }
  }

  /** The claimed parts are on a list and had no claim. */
  ghost predicate AreFree(lists: Lists, flags: map<PartWrapper, Flags>, claimed: Wrappers) {
    (AllOn(lists.inmemory, claimed) || AllOn(lists.small, claimed) || AllOn(lists.big, claimed)) &&
    forall pw :: pw in claimed ==> pw in flags && !flags[pw].isInMerge
  }

  ghost predicate AllOn(list: Wrappers, claimed: Wrappers) {
    forall pw :: pw in claimed ==> pw in list
  }

  lemma {:induction false} ClaimedIsShown(lists: Lists, ids: Ids, flags: map<PartWrapper, Flags>, flags': map<PartWrapper, Flags>,
                                          s: PL.State, m: PL.MergeId, claimed: Wrappers, groups: seq<Wrappers>, isFinal: bool)
    requires ShowsParts(ids, flags, s) && ShowsLists(lists, ids, s) && AreClaimed(flags, flags', claimed)
    requires AllGroupsIn(groups, ids) && AreGroupsOf(groups, claimed) && AllIn(claimed, ids)
    ensures ShowsParts(ids, flags', Claimed(ids, s, m, groups, isFinal)) && ShowsLists(lists, ids, Claimed(ids, s, m, groups, isFinal))
  {
    OwnedAreClaimed(ids, m, groups, claimed);
    MarksAreShown(ids, flags, flags', s, claimed, Claimed(ids, s, m, groups, isFinal));
  }

  lemma {:induction false} FreeGroupsAreClaimable(lists: Lists, ids: Ids, flags: map<PartWrapper, Flags>, s: PL.State, m: PL.MergeId,
                                                  claimed: Wrappers, groups: seq<Wrappers>)
    requires ShowsParts(ids, flags, s) && ShowsLists(lists, ids, s) && AreNewMerges(s, m) && AreFree(lists, flags, claimed)
    requires AreGroupsOf(groups, claimed)
    ensures AllIn(claimed, ids) && AllGroupsIn(groups, ids)
    ensures PL.Claimable(s, SourcesOf(ids, m, groups), OwnersOf(ids, m, groups))
  {
    var pws := if AllOn(lists.inmemory, claimed) then lists.inmemory else if AllOn(lists.small, claimed) then lists.small else lists.big;
    GroupsAreKnown(groups, claimed, ids, flags);
    FreeParts(ids, flags, s, pws, claimed);
    GroupsAreClaimable(ids, s, m, groups, claimed);
  }

  lemma {:induction false} GroupsAreKnown(groups: seq<Wrappers>, claimed: Wrappers, ids: Ids, flags: map<PartWrapper, Flags>)
    requires AreGroupsOf(groups, claimed) && flags.Keys == ids.Keys && forall pw :: pw in claimed ==> pw in flags
    ensures AllIn(claimed, ids) && AllGroupsIn(groups, ids)
  {
    forall i, k | 0 <= i < |groups| && 0 <= k < |groups[i]| ensures groups[i][k] in ids {
      assert InGroup(groups, i, groups[i][k]);
      GroupElement(groups, groups[i][k]);
    }
  }

  lemma {:induction false} ClaimIsStep(s: PL.State, groups: map<PL.MergeId, set<PL.PartId>>, claim: map<PL.PartId, PL.MergeId>, isFinal: bool)
    requires !s.closing && PL.Claimable(s, groups, claim)
    ensures Lead(PL.Up(s), [PL.Claim(groups, claim, isFinal)], PL.Up(PL.DoClaim(s, groups, claim, isFinal)))
  {
    OneStep(PL.Up(s), PL.Claim(groups, claim, isFinal), PL.Up(PL.DoClaim(s, groups, claim, isFinal)));
  }

  /** Free parts are claimed in groups by one step. */
  lemma {:induction false} ClaimLeads(lists: Lists, ids: Ids, flags: map<PartWrapper, Flags>, flags': map<PartWrapper, Flags>,
                                      s: PL.State, m: PL.MergeId, claimed: Wrappers, groups: seq<Wrappers>, isFinal: bool)
    requires ShowsParts(ids, flags, s) && ShowsLists(lists, ids, s) && Reachable(s) && !s.closing && AreNewMerges(s, m)
    requires AreFree(lists, flags, claimed) && AreClaimed(flags, flags', claimed) && AreGroupsOf(groups, claimed)
    ensures var s' := Claimed(ids, s, m, groups, isFinal);
            && Lead(PL.Up(s), [ClaimStep(ids, m, groups, isFinal)], PL.Up(s'))
            && ShowsParts(ids, flags', s') && ShowsLists(lists, ids, s') && Reachable(s')
  {
    var s' := Claimed(ids, s, m, groups, isFinal);
    FreeGroupsAreClaimable(lists, ids, flags, s, m, claimed, groups);
    ClaimIsStep(s, SourcesOf(ids, m, groups), OwnersOf(ids, m, groups), isFinal);
    StaysReachable(s, [ClaimStep(ids, m, groups, isFinal)], s');
    ClaimedIsShown(lists, ids, flags, flags', s, m, claimed, groups, isFinal);
  }

  // Background merges.

  method ClaimFlags(pws: Wrappers, maxOutBytes: nat, ghost parts: set<PartWrapper>) returns (claimed: Wrappers)
    requires ValidParts(pws) && forall i :: 0 <= i < |pws| ==> pws[i] in parts
    modifies pws`isInMerge
    ensures forall pw :: pw in claimed ==> pw in pws && pw in parts && !old(pw.isInMerge)
    ensures AreClaimed(old(FlagsOf(parts)), FlagsOf(parts), claimed) && Distinct(claimed)
  {
    ghost var sorted;
    claimed, sorted := GetPartsToMergeLocked(pws, maxOutBytes);
  }

  lemma {:induction false} OneGroup(claimed: Wrappers)
    requires Distinct(claimed)
    ensures AreGroupsOf([claimed], claimed)
  {
    assert [claimed][..0] == [];
    GroupsOfDistinct([claimed], claimed);
  }

  /** Parts are claimed for a merge by one step. */
  method ClaimForMerge(db: D.Datadb, pws: Wrappers, maxOutBytes: nat, ghost ids: Ids, ghost s: PL.State, ghost m: PL.MergeId)
    returns (claimed: Wrappers, ghost s': PL.State)
    requires Shows(db, ids, s) && !s.closing && AreNewMerges(s, m)
    requires pws in {db.inmemoryParts, db.smallParts, db.bigParts} && ValidParts(pws)
    modifies pws`isInMerge
    ensures Lead(PL.Up(s), [ClaimStep(ids, m, [claimed], false)], PL.Up(s'))
    ensures Shows(db, ids, s')
  {
    ghost var lists, flags := ListsOf(db), FlagsOf(ids.Keys);
    claimed := ClaimFlags(pws, maxOutBytes, ids.Keys);
    OneGroup(claimed);
    assert AllOn(pws, claimed);
    ClaimLeads(lists, ids, flags, FlagsOf(ids.Keys), s, m, claimed, [claimed], false);
    s' := Claimed(ids, s, m, [claimed], false);
  }

  // Flushing.

  lemma {:induction false} GroupsOfDistinct(groups: seq<Wrappers>, claimed: Wrappers)
    requires Distinct(claimed) && AllOf(groups) == multiset(claimed)
    ensures AreGroupsOf(groups, claimed)
  {
    forall pw | pw in AllOf(groups) ensures pw in claimed && AllOf(groups)[pw] == 1 {
      assert pw in multiset(claimed);
      DistinctCount(claimed, pw);
    }
    forall pw | pw in claimed ensures pw in AllOf(groups) {
      assert pw in multiset(claimed);
    }
  }

  method FlushFlags(pws: Wrappers, isFinal: bool, currentTime: int, maxOutBytes: nat, ghost parts: set<PartWrapper>)
    returns (claimed: Wrappers, groups: seq<Wrappers>)
    requires ValidParts(pws) && forall i :: 0 <= i < |pws| ==> pws[i] in parts
    modifies pws`isInMerge
    ensures forall pw :: pw in claimed <==> pw in pws && !old(pw.isInMerge) && (isFinal || pw.flushDeadline < currentTime)
    ensures AreClaimed(old(FlagsOf(parts)), FlagsOf(parts), claimed) && AreGroupsOf(groups, claimed)
    ensures Distinct(claimed) && AllOf(groups) == multiset(claimed) && AreOptimal(claimed, maxOutBytes, groups)
    ensures forall i :: 0 <= i < |groups| ==> groups[i] != []
  {
    ValidPartsAreDistinct(pws);
    claimed := D.ClaimForFlush(pws, isFinal, currentTime);
    ClaimedAreValid(claimed, pws);
    groups := MustMergePartsToFiles(claimed, maxOutBytes);
    GroupsOfDistinct(groups, claimed);
  }

  lemma {:induction false} ClaimedAreValid(claimed: Wrappers, pws: Wrappers)
    requires ValidParts(pws) && Distinct(claimed) && forall pw :: pw in claimed ==> pw in pws
    ensures ValidParts(claimed)
  {
    forall i, j | 0 <= i < j < |claimed| ensures claimed[i].ph.id != claimed[j].ph.id {
      assert claimed[i] in pws && claimed[j] in pws && claimed[i] != claimed[j];
    }
    forall i | 0 <= i < |claimed| ensures claimed[i].ph.compressedSizeBytes > 0 {
      assert claimed[i] in pws;
    }
  }

  /** The parts that are due are claimed by one step for all the merges of a flush, each of which writes a file
      and is the best merge of the parts that the ones before it leave. */
  method ClaimForFlush(db: D.Datadb, currentTime: int, maxOutBytes: nat, ghost ids: Ids, ghost s: PL.State, ghost m: PL.MergeId)
    returns (groups: seq<Wrappers>, ghost claimed: Wrappers, ghost s': PL.State)
    requires Shows(db, ids, s) && !s.closing && AreNewMerges(s, m) && ValidParts(db.inmemoryParts)
    modifies db.inmemoryParts`isInMerge
    ensures forall pw :: pw in claimed <==> pw in db.inmemoryParts && !old(pw.isInMerge) && pw.flushDeadline < currentTime
    ensures Distinct(claimed) && AllOf(groups) == multiset(claimed) && AreOptimal(claimed, maxOutBytes, groups)
    ensures Lead(PL.Up(s), [ClaimStep(ids, m, groups, true)], PL.Up(s'))
    ensures Shows(db, ids, s')
  {
    ghost var lists, flags := ListsOf(db), FlagsOf(ids.Keys);
    claimed, groups := FlushFlags(db.inmemoryParts, false, currentTime, maxOutBytes, ids.Keys);
    assert AllOn(lists.inmemory, claimed);
    ClaimLeads(lists, ids, flags, FlagsOf(ids.Keys), s, m, claimed, groups, true);
    s' := Claimed(ids, s, m, groups, true);
  }

  // Closing.

  ghost function CloseStep(ids: Ids, m: PL.MergeId, groups: seq<Wrappers>): PL.Step {
    PL.StartClose(SourcesOf(ids, m, groups), OwnersOf(ids, m, groups))
  }

  lemma {:induction false} CloseIsStep(s: PL.State, groups: map<PL.MergeId, set<PL.PartId>>, claim: map<PL.PartId, PL.MergeId>)
    requires !s.closing && s.merges == map[] && PL.Claimable(s, groups, claim)
    requires forall p :: p in claim <==> p in s.inmemoryParts && p !in s.isInMerge
    ensures Lead(PL.Up(s), [PL.StartClose(groups, claim)], PL.Up(PL.DoClaim(s, groups, claim, true).(closing := true)))
  {
    OneStep(PL.Up(s), PL.StartClose(groups, claim), PL.Up(PL.DoClaim(s, groups, claim, true).(closing := true)));
  }

  lemma {:induction false} AllFreeAreClaimed(lists: Lists, ids: Ids, flags: map<PartWrapper, Flags>, s: PL.State, claimed: Wrappers, p: PL.PartId)
    requires ShowsParts(ids, flags, s) && ShowsLists(lists, ids, s)
    requires forall pw :: pw in claimed <==> pw in lists.inmemory && pw in flags && !flags[pw].isInMerge
    ensures p in IdsOf(ids, claimed) <==> p in s.inmemoryParts && p !in s.isInMerge
  {
    if p in IdsOf(ids, claimed) {
      var pw :| pw in claimed && pw in ids && ids[pw] == p;
      assert ShowsPart(pw, flags[pw], p, s);
    }
    if p in s.inmemoryParts && p !in s.isInMerge {
      var pw :| pw in lists.inmemory && pw in ids && ids[pw] == p;
      assert ShowsPart(pw, flags[pw], p, s);
    }
  }

  lemma {:induction false} CloseLeads(lists: Lists, ids: Ids, flags: map<PartWrapper, Flags>, flags': map<PartWrapper, Flags>,
                                      s: PL.State, m: PL.MergeId, claimed: Wrappers, groups: seq<Wrappers>)
    requires ShowsParts(ids, flags, s) && ShowsLists(lists, ids, s) && Reachable(s) && !s.closing && s.merges == map[]
    requires AreClaimed(flags, flags', claimed) && AreGroupsOf(groups, claimed)
    requires forall pw :: pw in claimed <==> pw in lists.inmemory && pw in flags && !flags[pw].isInMerge
    ensures var s' := Claimed(ids, s, m, groups, true).(closing := true);
            && Lead(PL.Up(s), [CloseStep(ids, m, groups)], PL.Up(s'))
            && ShowsParts(ids, flags', s') && ShowsLists(lists, ids, s') && Reachable(s')
  {
    var s1 := Claimed(ids, s, m, groups, true);
    assert AllOn(lists.inmemory, claimed);
    FreeGroupsAreClaimable(lists, ids, flags, s, m, claimed, groups);
    OwnedAreClaimed(ids, m, groups, claimed);
    forall p ensures p in OwnersOf(ids, m, groups) <==> p in s.inmemoryParts && p !in s.isInMerge {
      AllFreeAreClaimed(lists, ids, flags, s, claimed, p);
    }
    CloseIsStep(s, SourcesOf(ids, m, groups), OwnersOf(ids, m, groups));
    StaysReachable(s, [CloseStep(ids, m, groups)], s1.(closing := true));
    ClaimedIsShown(lists, ids, flags, flags', s, m, claimed, groups, true);
    ClosingIsShown(lists, ids, flags', s1);
  }

  lemma {:induction false} ClosingIsShown(lists: Lists, ids: Ids, flags: map<PartWrapper, Flags>, s: PL.State)
    requires ShowsParts(ids, flags, s) && ShowsLists(lists, ids, s)
    ensures ShowsParts(ids, flags, s.(closing := true)) && ShowsLists(lists, ids, s.(closing := true))
  {
    forall pw | pw in ids ensures ShowsPart(pw, flags[pw], ids[pw], s.(closing := true)) {
      assert ShowsPart(pw, flags[pw], ids[pw], s);
    }
  }

  /** When the workers have stopped, closing claims all parts in memory by one step. */
  method ClaimForClose(db: D.Datadb, currentTime: int, maxOutBytes: nat, ghost ids: Ids, ghost s: PL.State, ghost m: PL.MergeId)
    returns (groups: seq<Wrappers>, ghost claimed: Wrappers, ghost s': PL.State)
    requires Shows(db, ids, s) && !s.closing && s.merges == map[] && ValidParts(db.inmemoryParts)
    modifies db.inmemoryParts`isInMerge
    ensures forall pw :: pw in claimed <==> pw in db.inmemoryParts && !old(pw.isInMerge)
    ensures Distinct(claimed) && AllOf(groups) == multiset(claimed) && AreOptimal(claimed, maxOutBytes, groups)
    ensures Lead(PL.Up(s), [CloseStep(ids, m, groups)], PL.Up(s')) && s'.closing
    ensures Shows(db, ids, s')
  {
    ghost var lists, flags := ListsOf(db), FlagsOf(ids.Keys);
    claimed, groups := FlushFlags(db.inmemoryParts, true, currentTime, maxOutBytes, ids.Keys);
    CloseLeads(lists, ids, flags, FlagsOf(ids.Keys), s, m, claimed, groups);
    s' := Claimed(ids, s, m, groups, true).(closing := true);
  }

  // ---------- The end of a merge ----------

  ghost predicate AreReleased(flags: map<PartWrapper, Flags>, flags': map<PartWrapper, Flags>, pws: Wrappers) {
    flags'.Keys == flags.Keys && forall pw :: pw in flags ==> flags'[pw] == flags[pw].(isInMerge := flags[pw].isInMerge && pw !in pws)
  }

  lemma {:induction false} ReleaseStep(lists: Lists, ids: Ids, flags: map<PartWrapper, Flags>, flags': map<PartWrapper, Flags>,
                                       s: PL.State, m: PL.MergeId, pws: Wrappers) returns (s': PL.State)
    requires ShowsParts(ids, flags, s) && ShowsLists(lists, ids, s) && Reachable(s)
    requires m in s.merges && s.merges[m] == PL.Merge(IdsOf(ids, pws), s.merges[m].isFinal, PL.Finishing({}))
    requires AreReleased(flags, flags', pws)
    ensures Lead(PL.Up(s), [PL.Release(m)], PL.Up(s'))
    ensures ShowsParts(ids, flags', s') && ShowsLists(lists, ids, s') && Reachable(s')
  {
    s' := MergeIsReleased(s, m);
    forall pw | pw in ids
      ensures ShowsPart(pw, flags'[pw], ids[pw], s')
    {
      HasId(ids, pws, pw);
      assert ShowsPart(pw, flags[pw], ids[pw], s);
    }
  }

  lemma {:induction false} MergeIsReleased(s: PL.State, m: PL.MergeId) returns (s': PL.State)
    requires Reachable(s) && m in s.merges && s.merges[m].phase == PL.Finishing({})
    ensures Lead(PL.Up(s), [PL.Release(m)], PL.Up(s')) && Reachable(s')
    ensures s' == s.(isInMerge := s.isInMerge - s.merges[m].srcs, merges := s'.merges, owner := s'.owner)
  {
    ReleaseIsUp(s, m);
    s' := PL.DoRelease(s, m).s;
    ReleaseIsStep(s, m, s');
    StaysReachable(s, [PL.Release(m)], s');
  }

  lemma {:induction false} ReleaseIsStep(s: PL.State, m: PL.MergeId, s': PL.State)
    requires m in s.merges && s.merges[m].phase == PL.Finishing({}) && PL.DoRelease(s, m) == PL.Up(s')
    ensures Lead(PL.Up(s), [PL.Release(m)], PL.Up(s'))
  {
    OneStep(PL.Up(s), PL.Release(m), PL.Up(s'));
  }

  lemma {:induction false} ReleaseIsUp(s: PL.State, m: PL.MergeId)
    requires Reachable(s) && m in s.merges && s.merges[m].phase == PL.Finishing({})
    ensures PL.DoRelease(s, m).Up?
  {
    ReachableIsSafe(s);
    PL.ReleaseKeeps(s, m);
  }

  lemma {:induction false} SourceIsMarked(s: PL.State, m: PL.MergeId, p: PL.PartId)
    requires Reachable(s) && m in s.merges && p in s.merges[m].srcs
    ensures p in s.isInMerge
  {
    ReachableIsSafe(s);
    OwnedIsMarked(s.isInMerge, s.owner, s.merges, m, p);
  }

  lemma {:induction false} OwnedIsMarked(isInMerge: set<PL.PartId>, owner: map<PL.PartId, PL.MergeId>, merges: map<PL.MergeId, PL.Merge>,
                                         m: PL.MergeId, p: PL.PartId)
    requires PL.ClaimsInv(isInMerge, owner, merges) && m in merges && p in merges[m].srcs
    ensures p in isInMerge
  {
  }

  lemma {:induction false} SourcesAreMarked(ids: Ids, flags: map<PartWrapper, Flags>, s: PL.State, m: PL.MergeId, pws: Wrappers)
    requires ShowsParts(ids, flags, s) && Reachable(s) && m in s.merges && s.merges[m].srcs == IdsOf(ids, pws) && AllIn(pws, ids)
    ensures forall pw :: pw in pws ==> pw in flags && flags[pw].isInMerge
  {
    forall pw | pw in pws
      ensures flags[pw].isInMerge
    {
      HasId(ids, pws, pw);
      assert ShowsPart(pw, flags[pw], ids[pw], s);
      SourceIsMarked(s, m, ids[pw]);
    }
  }

  /** The claims of a merge can always be taken back. */
  method ReleasePartsToMerge(db: D.Datadb, pws: Wrappers, ghost ids: Ids, ghost s: PL.State, ghost m: PL.MergeId)
    returns (ok: bool, ghost s': PL.State)
    requires Shows(db, ids, s) && Distinct(pws) && AllIn(pws, ids)
    requires m in s.merges && s.merges[m] == PL.Merge(IdsOf(ids, pws), s.merges[m].isFinal, PL.Finishing({}))
    modifies pws`isInMerge
    ensures ok && Lead(PL.Up(s), [PL.Release(m)], PL.Up(s'))
    ensures Shows(db, ids, s')
  {
    ghost var flags := FlagsOf(ids.Keys);
    SourcesAreMarked(ids, flags, s, m, pws);
    ok := D.ReleasePartsToMerge(pws);
    s' := ReleaseStep(ListsOf(db), ids, flags, FlagsOf(ids.Keys), s, m, pws);
  }

  // ---------- Dropping the sources ----------

  ghost function Dropped(flags: Flags): Flags {
    Flags(flags.refCount - 1, flags.refCount > 1, true, flags.isInMerge)
  }

  /** The first n of the parts are dropped. */
  ghost function DroppedParts(flags: map<PartWrapper, Flags>, pws: Wrappers, n: nat): (dropped: map<PartWrapper, Flags>)
    requires n <= |pws|
    ensures dropped.Keys == flags.Keys
  {
    if n == 0 then flags
    else
      var before, pw := DroppedParts(flags, pws, n - 1), pws[n - 1];
      if pw in flags then before[pw := Dropped(flags[pw])] else before
  }

  lemma {:induction false} DroppedElement(flags: map<PartWrapper, Flags>, pws: Wrappers, n: nat, pw: PartWrapper)
    requires n <= |pws| && pw in flags
    ensures DroppedParts(flags, pws, n)[pw] == if pw in pws[..n] then Dropped(flags[pw]) else flags[pw]
  {
    if n > 0 {
      DroppedElement(flags, pws, n - 1, pw);
      assert pws[..n] == pws[..n - 1] + [pws[n - 1]];
    }
  }

  ghost function DropSteps(ids: Ids, m: PL.MergeId, pws: Wrappers, n: nat): (steps: seq<PL.Step>)
    requires n <= |pws| && AllIn(pws, ids)
  {
    seq(n, i requires 0 <= i < n => PL.DropSrc(m, ids[pws[i]]))
  }

  ghost predicate IsFinishing(s: PL.State, m: PL.MergeId, left: set<PL.PartId>) {
    m in s.merges && s.merges[m].phase == PL.Finishing(left)
  }

  lemma {:induction false} DropStep(ids: Ids, flags: map<PartWrapper, Flags>, s: PL.State, m: PL.MergeId, left: set<PL.PartId>, pw: PartWrapper)
    returns (s': PL.State)
    requires ShowsParts(ids, flags, s) && Reachable(s) && IsFinishing(s, m, left) && pw in ids && ids[pw] in left
    ensures Lead(PL.Up(s), [PL.DropSrc(m, ids[pw])], PL.Up(s')) && Reachable(s')
    ensures flags[pw].isOpen && ShowsParts(ids, flags[pw := Dropped(flags[pw])], s')
    ensures PL.SameLists(s, s') && IsFinishing(s', m, left - {ids[pw]})
  {
    var p := ids[pw];
    ReachableIsSafe(s);
    PL.DropSrcKeeps(s, m, p);
    s' := PL.DoDropSrc(s, m, p).s;
    DropChanges(s, m, left, p);
    OneStep(PL.Up(s), PL.DropSrc(m, p), PL.Up(s'));
    StaysReachable(s, [PL.DropSrc(m, p)], s');
    DropIsShown(ids, flags, s, s', pw);
  }

  lemma {:induction false} DropChanges(s: PL.State, m: PL.MergeId, left: set<PL.PartId>, p: PL.PartId)
    requires IsFinishing(s, m, left) && PL.DoDropSrc(s, m, p).Up?
    ensures var s' := PL.DoDropSrc(s, m, p).s;
            && PL.SameLists(s, s') && IsFinishing(s', m, left - {p})
            && p in s.refCount && s.refCount[p] > 0 && s'.refCount == s.refCount[p := s.refCount[p] - 1]
            && s'.mustDrop == s.mustDrop + {p} && s'.isInMerge == s.isInMerge
  {
    DecRefChanges(PL.SetPhase(s, m, PL.Finishing(left - {p})).(mustDrop := s.mustDrop + {p}, dropping := s.dropping - {p}), p);
  }

  lemma {:induction false} DecRefChanges(s: PL.State, p: PL.PartId)
    requires PL.DecRef(s, p).Up?
    ensures var s' := PL.DecRef(s, p).s;
            && p in s.refCount && s.refCount[p] > 0
            && s' == s.(refCount := s.refCount[p := s.refCount[p] - 1], disk := s'.disk, dirOwner := s'.dirOwner)
  {
  }

  lemma {:induction false} DropIsShown(ids: Ids, flags: map<PartWrapper, Flags>, s: PL.State, s': PL.State, pw: PartWrapper)
    requires ShowsParts(ids, flags, s) && pw in ids && ids[pw] in s.refCount && s.refCount[ids[pw]] > 0
    requires s'.parts == s.parts && s'.refCount == s.refCount[ids[pw] := s.refCount[ids[pw]] - 1]
    requires s'.mustDrop == s.mustDrop + {ids[pw]} && s'.isInMerge == s.isInMerge
    ensures flags[pw].isOpen && ShowsParts(ids, flags[pw := Dropped(flags[pw])], s')
  {
    assert ShowsPart(pw, flags[pw], ids[pw], s);
    forall other | other in ids
      ensures ShowsPart(other, flags[pw := Dropped(flags[pw])][other], ids[other], s')
    {
      assert IsOnly(ids, pw);
      assert ShowsPart(other, flags[other], ids[other], s);
    }
  }

  /** The references of the lists to the parts that a merge has replaced are given up one after another. */
  lemma {:induction false} DropAll(ids: Ids, flags: map<PartWrapper, Flags>, s: PL.State, m: PL.MergeId, pws: Wrappers, n: nat) returns (s': PL.State)
    requires ShowsParts(ids, flags, s) && Reachable(s) && IsFinishing(s, m, IdsOf(ids, pws)) && AllIn(pws, ids) && Distinct(pws) && n <= |pws|
    ensures Lead(PL.Up(s), DropSteps(ids, m, pws, n), PL.Up(s')) && Reachable(s')
    ensures ShowsParts(ids, DroppedParts(flags, pws, n), s')
    ensures PL.SameLists(s, s') && IsFinishing(s', m, IdsOf(ids, pws) - IdsOf(ids, pws[..n]))
  {
    if n == 0 {
      s' := s;
      assert DroppedParts(flags, pws, 0) == flags;
    } else {
      var s1 := DropAll(ids, flags, s, m, pws, n - 1);
      s' := DropOneMore(ids, flags, s1, m, pws, n);
      OneMoreDropped(ids, flags, m, pws, n);
      MoreSteps(PL.Up(s), DropSteps(ids, m, pws, n - 1), PL.Up(s1), [PL.DropSrc(m, ids[pws[n - 1]])], PL.Up(s'));
    }
  }

  lemma {:induction false} DropOneMore(ids: Ids, flags: map<PartWrapper, Flags>, s: PL.State, m: PL.MergeId, pws: Wrappers, n: nat) returns (s': PL.State)
    requires AllIn(pws, ids) && Distinct(pws) && 0 < n <= |pws| && flags.Keys == ids.Keys && Reachable(s)
    requires ShowsParts(ids, DroppedParts(flags, pws, n - 1), s) && IsFinishing(s, m, IdsOf(ids, pws) - IdsOf(ids, pws[..n - 1]))
    ensures Lead(PL.Up(s), [PL.DropSrc(m, ids[pws[n - 1]])], PL.Up(s')) && Reachable(s')
    ensures ShowsParts(ids, DroppedParts(flags, pws, n), s')
    ensures PL.SameLists(s, s') && IsFinishing(s', m, IdsOf(ids, pws) - IdsOf(ids, pws[..n]))
  {
    var pw := pws[n - 1];
    HasId(ids, pws, pw);
    HasId(ids, pws[..n - 1], pw);
    s' := DropStep(ids, DroppedParts(flags, pws, n - 1), s, m, IdsOf(ids, pws) - IdsOf(ids, pws[..n - 1]), pw);
    OneMoreDropped(ids, flags, m, pws, n);
  }

  lemma {:induction false} OneMoreDropped(ids: Ids, flags: map<PartWrapper, Flags>, m: PL.MergeId, pws: Wrappers, n: nat)
    requires AllIn(pws, ids) && Distinct(pws) && 0 < n <= |pws| && flags.Keys == ids.Keys
    ensures DropSteps(ids, m, pws, n) == DropSteps(ids, m, pws, n - 1) + [PL.DropSrc(m, ids[pws[n - 1]])]
    ensures var before, pw := DroppedParts(flags, pws, n - 1), pws[n - 1];
            before[pw] == flags[pw] && DroppedParts(flags, pws, n) == before[pw := Dropped(flags[pw])]
    ensures IdsOf(ids, pws[..n]) == IdsOf(ids, pws[..n - 1]) + {ids[pws[n - 1]]}
  {
    assert pws[..n] == pws[..n - 1] + [pws[n - 1]];
    DroppedElement(flags, pws, n - 1, pws[n - 1]);
  }

  // ---------- Swapping sources and result ----------

  /** What a finished merge puts on the lists: nothing when no row is left. */
  ghost predicate IsResult(s: PL.State, m: PL.MergeId, pwNew: PartWrapper?, flags: Flags, deadline: int)
    requires m in s.merges && s.merges[m].phase.Written?
  {
    var phase := s.merges[m].phase;
    if pwNew == null then PL.UnionRows(s.parts, s.merges[m].srcs) == {}
    else
      && PL.UnionRows(s.parts, s.merges[m].srcs) != {}
      && pwNew.isInmemory == (phase.dst == PL.Inmemory)
      && (if pwNew.isInmemory then pwNew.flushDeadline == deadline else pwNew.name == phase.name)
      && flags == Flags(1, true, false, false)
  }

  ghost function WithPart(ids: Ids, pwNew: PartWrapper?, p: PL.PartId): Ids {
    if pwNew == null then ids else ids[pwNew := p]
  }

  ghost function WithFlags(flags: map<PartWrapper, Flags>, pwNew: PartWrapper?): map<PartWrapper, Flags> {
    if pwNew == null then flags else flags[pwNew := Flags(1, true, false, false)]
  }

  ghost function Swapped(lists: Lists, pws: Wrappers, pwNew: PartWrapper?, dst: PL.PartType): Lists {
    Lists(Removed(lists.inmemory, SetOf(pws)) + NewPart(pwNew, dst, PL.Inmemory),
          Removed(lists.small, SetOf(pws)) + NewPart(pwNew, dst, PL.Small),
          Removed(lists.big, SetOf(pws)) + NewPart(pwNew, dst, PL.Big))
  }

  lemma {:induction false} IdsOfRest(ids: Ids, list: Wrappers, pws: Wrappers, rest: Wrappers)
    requires Injective(ids) && AllIn(list, ids) && AllIn(pws, ids) && forall pw :: pw in rest <==> pw in list && pw !in pws
    ensures IdsOf(ids, rest) == IdsOf(ids, list) - IdsOf(ids, pws)
  {
    forall pw | pw in list
      ensures ids[pw] in IdsOf(ids, pws) <==> pw in pws
    {
      HasId(ids, pws, pw);
    }
  }

  lemma {:induction false} IdsAfterSwap(ids: Ids, p: PL.PartId, list: Wrappers, pws: Wrappers, pwNew: PartWrapper?, dst: PL.PartType, of: PL.PartType)
    requires Injective(ids) && AllIn(list, ids) && AllIn(pws, ids) && (pwNew != null ==> pwNew !in ids)
    ensures var list', ids' := Removed(list, SetOf(pws)) + NewPart(pwNew, dst, of), WithPart(ids, pwNew, p);
            && AllIn(list', ids')
            && IdsOf(ids', list') == IdsOf(ids, list) - IdsOf(ids, pws) + (if pwNew != null && dst == of then {p} else {})
  {
    var rest, ids' := Removed(list, SetOf(pws)), WithPart(ids, pwNew, p);
    RemovedElements(list, SetOf(pws));
    RemovedAsSet(list, SetOf(pws));
    assert forall pw :: pw in rest <==> pw in SetOf(rest);
    assert forall pw :: pw in list <==> pw in SetOf(list);
    IdsOfRest(ids, list, pws, rest);
    IdsOfMore(ids, p, rest, pwNew, dst, of);
  }

  lemma {:induction false} IdsOfMore(ids: Ids, p: PL.PartId, rest: Wrappers, pwNew: PartWrapper?, dst: PL.PartType, of: PL.PartType)
    requires AllIn(rest, ids) && (pwNew != null ==> pwNew !in ids)
    ensures var list', ids' := rest + NewPart(pwNew, dst, of), WithPart(ids, pwNew, p);
            AllIn(list', ids') && IdsOf(ids', list') == IdsOf(ids, rest) + (if pwNew != null && dst == of then {p} else {})
  {
    var ids' := WithPart(ids, pwNew, p);
    assert IdsOf(ids', rest) == IdsOf(ids, rest);
    assert forall pw :: pw in rest + NewPart(pwNew, dst, of) <==> pw in rest || (pw == pwNew && dst == of);
    if pwNew != null && dst == of {
      assert pwNew in rest + [pwNew] && ids'[pwNew] == p;
      assert p in IdsOf(ids', rest + [pwNew]);
    }
  }

  lemma {:induction false} StaysInjective(ids: Ids, pwNew: PartWrapper?, p: PL.PartId)
    requires Injective(ids) && p !in ids.Values
    ensures Injective(WithPart(ids, pwNew, p))
  {
    var ids' := WithPart(ids, pwNew, p);
    forall pw | pw in ids'
      ensures IsOnly(ids', pw)
    {
      assert pw in ids ==> IsOnly(ids, pw);
    }
  }

  /** What a swap changes; the new part has the next number. */
  ghost predicate IsSwap(s: PL.State, m: PL.MergeId, deadline: int, s': PL.State)
    requires m in s.merges && s.merges[m].phase.Written?
  {
    var phase, srcs, p := s.merges[m].phase, s.merges[m].srcs, s.nextId;
    var isAdded := PL.UnionRows(s.parts, srcs) != {};
    && s'.inmemoryParts == s.inmemoryParts - srcs + (if isAdded && phase.dst == PL.Inmemory then {p} else {})
    && s'.smallParts == s.smallParts - srcs + (if isAdded && phase.dst == PL.Small then {p} else {})
    && s'.bigParts == s.bigParts - srcs + (if isAdded && phase.dst == PL.Big then {p} else {})
    && s'.mustDrop == s.mustDrop && s'.isInMerge == s.isInMerge && IsFinishing(s', m, srcs)
    && (if isAdded then
          && p in s'.parts && s'.parts == s.parts[p := s'.parts[p]] && s'.refCount == s.refCount[p := 1]
          && s'.parts[p].partType == phase.dst
          && (if phase.dst == PL.Inmemory then s'.parts[p].flushDeadline == deadline else s'.parts[p].name == phase.name)
        else s'.parts == s.parts && s'.refCount == s.refCount)
  }

  lemma {:induction false} SwapChanges(s: PL.State, m: PL.MergeId, size: nat, deadline: int)
    requires m in s.merges && s.merges[m].phase.Written? && PL.DoSwap(s, m, size, deadline).Up?
    ensures IsSwap(s, m, deadline, PL.DoSwap(s, m, size, deadline).s)
  {
    var dst, name, rows := s.merges[m].phase.dst, s.merges[m].phase.name, PL.UnionRows(s.parts, s.merges[m].srcs);
    if rows == {} {
      SwapWithoutResult(s, m, deadline);
    } else if dst == PL.Inmemory {
      SwapIntoMemory(s, m, PL.Part(rows, dst, 0, size, deadline));
    } else {
      SwapIntoFile(s, m, PL.Part(rows, dst, name, size, 0), deadline);
    }
  }

  lemma {:induction false} SwapWithoutResult(s: PL.State, m: PL.MergeId, deadline: int)
    requires m in s.merges && s.merges[m].phase.Written? && PL.UnionRows(s.parts, s.merges[m].srcs) == {}
    ensures IsSwap(s, m, deadline, PL.SwappedNothing(s, m))
  {
    var s1 := PL.Unlisted(s, m);
    OnlyFiles(s1, PL.RemovedFiles(s, m) > 0, s.merges[m].phase.name);
    UnlistedIs(s, m);
  }

  lemma {:induction false} UnlistedIs(s: PL.State, m: PL.MergeId)
    requires m in s.merges && s.merges[m].phase.Written?
    ensures var s', srcs := PL.Unlisted(s, m), s.merges[m].srcs;
            && s'.inmemoryParts == s.inmemoryParts - srcs + {} && s'.smallParts == s.smallParts - srcs + {}
            && s'.bigParts == s.bigParts - srcs + {} && IsFinishing(s', m, srcs)
            && s'.mustDrop == s.mustDrop && s'.isInMerge == s.isInMerge && s'.parts == s.parts && s'.refCount == s.refCount
            && s'.nextId == s.nextId
  {
  }

  lemma {:induction false} OnlyFiles(s: PL.State, write: bool, name: PL.Name)
    ensures var s' := PL.WithNames(s, write);
            s' == s.(partsJson := s'.partsJson) && PL.StartRemove(s', name) == s'.(disk := s'.disk[name := PL.Partial], dirOwner := s'.dirOwner[name := PL.Removing])
  {
  }

  lemma {:induction false} SwapIntoMemory(s: PL.State, m: PL.MergeId, part: PL.Part)
    requires m in s.merges && s.merges[m].phase.Written? && PL.UnionRows(s.parts, s.merges[m].srcs) != {}
    requires part.partType == s.merges[m].phase.dst == PL.Inmemory
    ensures IsSwap(s, m, part.flushDeadline, PL.SwappedMemory(s, m, part))
  {
    OnlyFiles(PL.AddPart(PL.Unlisted(s, m), part), PL.RemovedFiles(s, m) > 0, 0);
    UnlistedIs(s, m);
  }

  lemma {:induction false} SwapIntoFile(s: PL.State, m: PL.MergeId, part: PL.Part, deadline: int)
    requires m in s.merges && s.merges[m].phase.Written? && PL.UnionRows(s.parts, s.merges[m].srcs) != {}
    requires part.partType == s.merges[m].phase.dst != PL.Inmemory && part.name == s.merges[m].phase.name
    ensures IsSwap(s, m, deadline, PL.SwappedFile(s, m, part))
  {
    OnlyFiles(PL.AddPart(PL.Unlisted(s, m), part), true, 0);
    UnlistedIs(s, m);
  }

  lemma {:induction false} NextPartIsNew(s: PL.State)
    requires PL.Inv(s)
    ensures s.nextId !in s.parts && s.nextId !in s.mustDrop && s.nextId !in s.isInMerge
  {
    forall p | p in s.isInMerge
      ensures p in s.parts
    {
      assert p in s.merges[s.owner[p]].srcs;
    }
  }

  lemma {:induction false} SwappedParts(ids: Ids, flags: map<PartWrapper, Flags>, s: PL.State, m: PL.MergeId, pwNew: PartWrapper?, deadline: int, s': PL.State)
    requires ShowsParts(ids, flags, s) && PL.Inv(s) && m in s.merges && s.merges[m].phase.Written? && IsSwap(s, m, deadline, s')
    requires IsResult(s, m, pwNew, Flags(1, true, false, false), deadline) && (pwNew != null ==> pwNew !in ids)
    ensures ShowsParts(WithPart(ids, pwNew, s.nextId), WithFlags(flags, pwNew), s')
  {
    NextPartIsNew(s);
    var ids', flags' := WithPart(ids, pwNew, s.nextId), WithFlags(flags, pwNew);
    forall pw | pw in ids
      ensures ids[pw] != s.nextId && ShowsPart(pw, flags[pw], ids[pw], s')
    {
      assert ShowsPart(pw, flags[pw], ids[pw], s);
    }
    StaysInjective(ids, pwNew, s.nextId);
    if pwNew != null {
      assert ShowsPart(pwNew, flags'[pwNew], s.nextId, s');
    }
  }

  lemma {:induction false} SwappedLists(lists: Lists, ids: Ids, s: PL.State, m: PL.MergeId, pws: Wrappers, pwNew: PartWrapper?, deadline: int, s': PL.State)
    requires ShowsLists(lists, ids, s) && Injective(ids) && AllIn(pws, ids) && (pwNew != null ==> pwNew !in ids)
    requires m in s.merges && s.merges[m].phase.Written? && s.merges[m].srcs == IdsOf(ids, pws) && IsSwap(s, m, deadline, s')
    requires IsResult(s, m, pwNew, Flags(1, true, false, false), deadline)
    ensures ShowsLists(Swapped(lists, pws, pwNew, s.merges[m].phase.dst), WithPart(ids, pwNew, s.nextId), s')
  {
    var dst := s.merges[m].phase.dst;
    IdsAfterSwap(ids, s.nextId, lists.inmemory, pws, pwNew, dst, PL.Inmemory);
    IdsAfterSwap(ids, s.nextId, lists.small, pws, pwNew, dst, PL.Small);
    IdsAfterSwap(ids, s.nextId, lists.big, pws, pwNew, dst, PL.Big);
  }

  lemma {:induction false} SwapStep(lists: Lists, ids: Ids, flags: map<PartWrapper, Flags>, s: PL.State, m: PL.MergeId, pws: Wrappers,
                                    pwNew: PartWrapper?, size: nat, now: int, deadline: int) returns (s': PL.State)
    requires ShowsParts(ids, flags, s) && ShowsLists(lists, ids, s) && Reachable(s) && AllIn(pws, ids) && (pwNew != null ==> pwNew !in ids)
    requires m in s.merges && s.merges[m].phase.Written? && s.merges[m].srcs == IdsOf(ids, pws)
    requires PL.IsFlushDeadline(s.parts, s.merges[m].srcs, now, deadline) && IsResult(s, m, pwNew, Flags(1, true, false, false), deadline)
    ensures Lead(PL.Up(s), [PL.Swap(m, size, now, deadline)], PL.Up(s')) && Reachable(s') && IsFinishing(s', m, IdsOf(ids, pws))
    ensures var ids' := WithPart(ids, pwNew, s.nextId);
            ShowsParts(ids', WithFlags(flags, pwNew), s') && ShowsLists(Swapped(lists, pws, pwNew, s.merges[m].phase.dst), ids', s')
  {
    ReachableIsSafe(s);
    PL.SwapKeeps(s, m, size, now, deadline);
    s' := PL.DoSwap(s, m, size, deadline).s;
    SwapChanges(s, m, size, deadline);
    OneStep(PL.Up(s), PL.Swap(m, size, now, deadline), PL.Up(s'));
    StaysReachable(s, [PL.Swap(m, size, now, deadline)], s');
    SwappedParts(ids, flags, s, m, pwNew, deadline, s');
    SwappedLists(lists, ids, s, m, pws, pwNew, deadline, s');
  }

  /** The sources of a merge are listed and open. */
  lemma {:induction false} SourcesAreListed(lists: Lists, ids: Ids, flags: map<PartWrapper, Flags>, s: PL.State, m: PL.MergeId, pws: Wrappers)
    requires ShowsParts(ids, flags, s) && ShowsLists(lists, ids, s) && Reachable(s) && AllIn(pws, ids)
    requires m in s.merges && s.merges[m].phase.Written? && s.merges[m].srcs == IdsOf(ids, pws)
    ensures forall i :: 0 <= i < |pws| ==> pws[i] in lists.inmemory || pws[i] in lists.small || pws[i] in lists.big
    ensures forall i :: 0 <= i < |pws| ==> flags[pws[i]].isOpen
  {
    ReachableIsSafe(s);
    forall i | 0 <= i < |pws|
      ensures (pws[i] in lists.inmemory || pws[i] in lists.small || pws[i] in lists.big) && flags[pws[i]].isOpen
    {
      var p := ids[pws[i]];
      HasId(ids, pws, pws[i]);
      HasId(ids, lists.inmemory, pws[i]);
      HasId(ids, lists.small, pws[i]);
      HasId(ids, lists.big, pws[i]);
      assert ShowsPart(pws[i], flags[pws[i]], p, s);
      PL.ListedPartIsSafe(s, p);
    }
  }

  lemma {:induction false} SwapSteps(lists: Lists, ids: Ids, flags: map<PartWrapper, Flags>, s: PL.State, m: PL.MergeId, pws: Wrappers,
                                     pwNew: PartWrapper?, size: nat, now: int, deadline: int) returns (ids': Ids, s': PL.State)
    requires ShowsParts(ids, flags, s) && ShowsLists(lists, ids, s) && Reachable(s) && AllIn(pws, ids) && Distinct(pws)
    requires pwNew != null ==> pwNew !in ids
    requires m in s.merges && s.merges[m].phase.Written? && s.merges[m].srcs == IdsOf(ids, pws)
    requires PL.IsFlushDeadline(s.parts, s.merges[m].srcs, now, deadline) && IsResult(s, m, pwNew, Flags(1, true, false, false), deadline)
    ensures ids' == WithPart(ids, pwNew, s.nextId) && IsFinishing(s', m, {}) && Reachable(s')
    ensures Lead(PL.Up(s), [PL.Swap(m, size, now, deadline)] + DropSteps(ids, m, pws, |pws|), PL.Up(s'))
    ensures ShowsParts(ids', DroppedParts(WithFlags(flags, pwNew), pws, |pws|), s')
    ensures ShowsLists(Swapped(lists, pws, pwNew, s.merges[m].phase.dst), ids', s')
  {
    ids' := WithPart(ids, pwNew, s.nextId);
    var s1 := SwapStep(lists, ids, flags, s, m, pws, pwNew, size, now, deadline);
    s' := SourcesAreDropped(ids, WithFlags(flags, pwNew), s1, m, pws, pwNew, s.nextId);
    SameListsShown(Swapped(lists, pws, pwNew, s.merges[m].phase.dst), ids', s1, s');
    MoreSteps(PL.Up(s), [PL.Swap(m, size, now, deadline)], PL.Up(s1), DropSteps(ids, m, pws, |pws|), PL.Up(s'));
  }

  lemma {:induction false} SourcesAreDropped(ids: Ids, flags: map<PartWrapper, Flags>, s: PL.State, m: PL.MergeId, pws: Wrappers,
                                             pwNew: PartWrapper?, p: PL.PartId) returns (s': PL.State)
    requires ShowsParts(WithPart(ids, pwNew, p), flags, s) && Reachable(s) && IsFinishing(s, m, IdsOf(ids, pws))
    requires AllIn(pws, ids) && Distinct(pws) && (pwNew != null ==> pwNew !in ids)
    ensures Lead(PL.Up(s), DropSteps(ids, m, pws, |pws|), PL.Up(s')) && Reachable(s') && IsFinishing(s', m, {})
    ensures ShowsParts(WithPart(ids, pwNew, p), DroppedParts(flags, pws, |pws|), s') && PL.SameLists(s, s')
  {
    SameIds(ids, pws, pwNew, p, m);
    s' := DropAll(WithPart(ids, pwNew, p), flags, s, m, pws, |pws|);
  }

  lemma {:induction false} SameListsShown(lists: Lists, ids: Ids, s: PL.State, s': PL.State)
    requires ShowsLists(lists, ids, s) && PL.SameLists(s, s')
    ensures ShowsLists(lists, ids, s')
  {
  }

  lemma {:induction false} SameIds(ids: Ids, pws: Wrappers, pwNew: PartWrapper?, p: PL.PartId, m: PL.MergeId)
    requires AllIn(pws, ids) && (pwNew != null ==> pwNew !in ids)
    ensures var ids' := WithPart(ids, pwNew, p);
            AllIn(pws, ids') && IdsOf(ids', pws) == IdsOf(ids, pws) && DropSteps(ids', m, pws, |pws|) == DropSteps(ids, m, pws, |pws|)
    ensures pws[..|pws|] == pws
  {
  }

  lemma {:induction false} FlagsWithNew(ids: Ids, pwNew: PartWrapper?, p: PL.PartId)
    requires pwNew != null ==> pwNew !in ids && FlagsOf({pwNew})[pwNew] == Flags(1, true, false, false)
    ensures FlagsOf(WithPart(ids, pwNew, p).Keys) == WithFlags(FlagsOf(ids.Keys), pwNew)
  {
  }

  method SwapFlags(db: D.Datadb, pws: Wrappers, pwNew: PartWrapper?, dst: PL.PartType, ghost parts: set<PartWrapper>)
    returns (ok: bool, deletedNames: seq<nat>)
    requires db.Valid() && Distinct(pws) && forall i :: 0 <= i < |pws| ==> db.Listed(pws[i]) && pws[i].isOpen && pws[i] in parts
    requires pwNew != null ==> !db.Listed(pwNew) && pwNew.isInmemory == (dst == PL.Inmemory)
    modifies db, pws`mustDrop, pws`refCount, pws`isOpen
    ensures ok && db.Valid() && ListsOf(db) == Swapped(old(ListsOf(db)), pws, pwNew, dst)
    ensures FlagsOf(parts) == DroppedParts(old(FlagsOf(parts)), pws, |pws|)
  {
    ghost var flags, sources := FlagsOf(parts), SetOf(pws);
    ok, deletedNames := db.SwapSrcWithDstParts(pws, pwNew, dst);
    forall pw | pw in parts ensures FlagsOf(parts)[pw] == if pw in sources then Dropped(flags[pw]) else flags[pw] {
      assert pw in sources <==> pw in pws;
    }
    AllDropped(flags, FlagsOf(parts), pws);
  }

  lemma {:induction false} AllDropped(flags: map<PartWrapper, Flags>, flags': map<PartWrapper, Flags>, pws: Wrappers)
    requires flags'.Keys == flags.Keys
    requires forall pw :: pw in flags && pw in SetOf(pws) ==> flags'[pw] == Dropped(flags[pw])
    requires forall pw :: pw in flags && pw !in SetOf(pws) ==> flags'[pw] == flags[pw]
    ensures flags' == DroppedParts(flags, pws, |pws|)
  {
    assert pws[..|pws|] == pws;
    forall pw | pw in flags ensures flags'[pw] == DroppedParts(flags, pws, |pws|)[pw] {
      DroppedElement(flags, pws, |pws|, pw);
      assert pw in pws <==> pw in SetOf(pws);
    }
  }

  lemma {:induction false} SwapIsReady(db: D.Datadb, pws: Wrappers, pwNew: PartWrapper?, ids: Ids, s: PL.State, m: PL.MergeId,
                                       deadline: int, dst: PL.PartType)
    requires Shows(db, ids, s) && AllIn(pws, ids) && Distinct(pws) && (pwNew != null ==> pwNew !in ids)
    requires m in s.merges && s.merges[m].phase.Written? && s.merges[m].phase.dst == dst && s.merges[m].srcs == IdsOf(ids, pws)
    requires IsResult(s, m, pwNew, if pwNew == null then Flags(0, false, false, false) else FlagsOf({pwNew})[pwNew], deadline)
    ensures forall i :: 0 <= i < |pws| ==> db.Listed(pws[i]) && pws[i].isOpen && pws[i] in WithPart(ids, pwNew, s.nextId)
    ensures pwNew != null ==> !db.Listed(pwNew) && pwNew.isInmemory == (dst == PL.Inmemory)
    ensures IsResult(s, m, pwNew, Flags(1, true, false, false), deadline)
    ensures FlagsOf(WithPart(ids, pwNew, s.nextId).Keys) == WithFlags(FlagsOf(ids.Keys), pwNew)
  {
    SourcesAreListed(ListsOf(db), ids, FlagsOf(ids.Keys), s, m, pws);
    FlagsWithNew(ids, pwNew, s.nextId);
  }

  /** A swap never fails; it is a step of the merge followed by dropping its sources. */
  method SwapSrcWithDstParts(db: D.Datadb, pws: Wrappers, pwNew: PartWrapper?, ghost ids: Ids, ghost s: PL.State, ghost m: PL.MergeId,
                             ghost size: nat, ghost now: int, ghost deadline: int, dst: PL.PartType)
    returns (ok: bool, deletedNames: seq<nat>, ghost ids': Ids, ghost s': PL.State)
    requires Shows(db, ids, s) && AllIn(pws, ids) && Distinct(pws) && (pwNew != null ==> pwNew !in ids)
    requires m in s.merges && s.merges[m].phase.Written? && s.merges[m].phase.dst == dst && s.merges[m].srcs == IdsOf(ids, pws)
    requires PL.IsFlushDeadline(s.parts, s.merges[m].srcs, now, deadline)
    requires IsResult(s, m, pwNew, if pwNew == null then Flags(0, false, false, false) else FlagsOf({pwNew})[pwNew], deadline)
    modifies db, pws`mustDrop, pws`refCount, pws`isOpen
    ensures ok && ids' == WithPart(ids, pwNew, s.nextId)
    ensures Lead(PL.Up(s), [PL.Swap(m, size, now, deadline)] + DropSteps(ids, m, pws, |pws|), PL.Up(s'))
    ensures Shows(db, ids', s') && IsFinishing(s', m, {})
  {
    SwapIsReady(db, pws, pwNew, ids, s, m, deadline, dst);
    ids', s' := SwapSteps(ListsOf(db), ids, FlagsOf(ids.Keys), s, m, pws, pwNew, size, now, deadline);
    ok, deletedNames := SwapFlags(db, pws, pwNew, dst, ids'.Keys);
  }

  // ---------- Readers ----------

  lemma {:induction false} RefIsShown(ids: Ids, flags: map<PartWrapper, Flags>, s: PL.State, pw: PartWrapper, n: int, s': PL.State)
    requires ShowsParts(ids, flags, s) && pw in ids && s'.parts == s.parts && s'.refCount == s.refCount[ids[pw] := n]
    requires s'.mustDrop == s.mustDrop && s'.isInMerge == s.isInMerge
    ensures ShowsParts(ids, flags[pw := flags[pw].(refCount := n, isOpen := n > 0)], s')
  {
    forall other | other in ids
      ensures ShowsPart(other, flags[pw := flags[pw].(refCount := n, isOpen := n > 0)][other], ids[other], s')
    {
      assert IsOnly(ids, pw);
      assert ShowsPart(other, flags[other], ids[other], s);
    }
  }

  lemma {:induction false} AcquireStep(lists: Lists, ids: Ids, flags: map<PartWrapper, Flags>, s: PL.State, pw: PartWrapper) returns (s': PL.State)
    requires ShowsParts(ids, flags, s) && ShowsLists(lists, ids, s) && Reachable(s) && !s.closing
    requires pw in ids && ids[pw] in PL.Listed(s)
    ensures Lead(PL.Up(s), [PL.AcquirePart(ids[pw])], PL.Up(s')) && Reachable(s') && ShowsLists(lists, ids, s') && ids[pw] in s'.readers
    ensures var n := flags[pw].refCount + 1; ShowsParts(ids, flags[pw := flags[pw].(refCount := n, isOpen := n > 0)], s') && n > 0
  {
    var p := ids[pw];
    s' := ReaderIsAdded(s, p);
    assert ShowsPart(pw, flags[pw], p, s);
    RefIsShown(ids, flags, s, pw, flags[pw].refCount + 1, s');
  }

  lemma {:induction false} ReleasePartStep(lists: Lists, ids: Ids, flags: map<PartWrapper, Flags>, s: PL.State, pw: PartWrapper) returns (s': PL.State)
    requires ShowsParts(ids, flags, s) && ShowsLists(lists, ids, s) && Reachable(s) && pw in ids && ids[pw] in s.readers
    ensures Lead(PL.Up(s), [PL.ReleasePart(ids[pw])], PL.Up(s')) && Reachable(s') && ShowsLists(lists, ids, s') && flags[pw].isOpen
    ensures var n := flags[pw].refCount - 1; ShowsParts(ids, flags[pw := flags[pw].(refCount := n, isOpen := n > 0)], s')
  {
    var p := ids[pw];
    s' := ReaderIsReleased(s, p);
    assert ShowsPart(pw, flags[pw], p, s);
    RefIsShown(ids, flags, s, pw, flags[pw].refCount - 1, s');
  }

  lemma {:induction false} ReaderIsReleased(s: PL.State, p: PL.PartId) returns (s': PL.State)
    requires Reachable(s) && p in s.readers
    ensures Lead(PL.Up(s), [PL.ReleasePart(p)], PL.Up(s')) && Reachable(s')
    ensures IsRefStep(s, p, s') && s'.refCount == s.refCount[p := s.refCount[p] - 1]
  {
    ReaderReleaseIsUp(s, p);
    s' := PL.DoReleasePart(s, p).s;
    ReleaseChanges(s, p);
    ReaderReleaseIsStep(s, p, s');
    StaysReachable(s, [PL.ReleasePart(p)], s');
  }

  lemma {:induction false} ReaderReleaseIsStep(s: PL.State, p: PL.PartId, s': PL.State)
    requires p in s.readers && PL.DoReleasePart(s, p) == PL.Up(s')
    ensures Lead(PL.Up(s), [PL.ReleasePart(p)], PL.Up(s'))
  {
    OneStep(PL.Up(s), PL.ReleasePart(p), PL.Up(s'));
  }

  lemma {:induction false} ReaderReleaseIsUp(s: PL.State, p: PL.PartId)
    requires Reachable(s) && p in s.readers
    ensures PL.DoReleasePart(s, p).Up?
  {
    ReachableIsSafe(s);
    PL.ReleasePartKeeps(s, p);
  }

  /** Only the references to the part change; its directory may be removed. */
  ghost predicate IsRefStep(s: PL.State, p: PL.PartId, s': PL.State) {
    PL.SameLists(s, s') && p in s.refCount && s.refCount[p] > 0 && s'.mustDrop == s.mustDrop && s'.isInMerge == s.isInMerge
  }

  lemma {:induction false} ReaderIsAdded(s: PL.State, p: PL.PartId) returns (s': PL.State)
    requires Reachable(s) && !s.closing && p in PL.Listed(s)
    ensures Lead(PL.Up(s), [PL.AcquirePart(p)], PL.Up(s')) && Reachable(s')
    ensures IsRefStep(s, p, s') && s'.refCount == s.refCount[p := s.refCount[p] + 1] && p in s'.readers
  {
    AcquireIsUp(s, p);
    s' := PL.DoAcquire(s, p).s;
    AcquireIsStep(s, p, s');
    StaysReachable(s, [PL.AcquirePart(p)], s');
  }

  lemma {:induction false} AcquireIsStep(s: PL.State, p: PL.PartId, s': PL.State)
    requires !s.closing && p in PL.Listed(s) && PL.DoAcquire(s, p) == PL.Up(s')
    ensures Lead(PL.Up(s), [PL.AcquirePart(p)], PL.Up(s'))
  {
    OneStep(PL.Up(s), PL.AcquirePart(p), PL.Up(s'));
  }

  lemma {:induction false} AcquireIsUp(s: PL.State, p: PL.PartId)
    requires Reachable(s) && p in PL.Listed(s)
    ensures PL.DoAcquire(s, p).Up?
  {
    ReachableIsSafe(s);
    PL.AcquireKeeps(s, p);
  }

  lemma {:induction false} ReleaseChanges(s: PL.State, p: PL.PartId)
    requires PL.DoReleasePart(s, p).Up?
    ensures var s' := PL.DoReleasePart(s, p).s;
            IsRefStep(s, p, s') && s'.refCount == s.refCount[p := s.refCount[p] - 1]
  {
    DecRefChanges(s.(readers := s.readers - multiset{p}), p);
  }

  /** A query takes a reference to a listed part. */
  method AcquirePart(db: D.Datadb, pw: PartWrapper, ghost ids: Ids, ghost s: PL.State) returns (ghost s': PL.State)
    requires Shows(db, ids, s) && !s.closing && pw in ids && ids[pw] in PL.Listed(s)
    modifies pw`refCount
    ensures Lead(PL.Up(s), [PL.AcquirePart(ids[pw])], PL.Up(s')) && Shows(db, ids, s') && ids[pw] in s'.readers
  {
    ghost var flags := FlagsOf(ids.Keys);
    s' := AcquireStep(ListsOf(db), ids, flags, s, pw);
    IsOpen(ids, flags, s, pw);
    IncRefFlags(pw, ids.Keys);
  }

  method IncRefFlags(pw: PartWrapper, ghost parts: set<PartWrapper>)
    requires pw in parts && pw.isOpen
    modifies pw`refCount
    ensures FlagsOf(parts) == old(FlagsOf(parts))[pw := old(FlagsOf(parts)[pw]).(refCount := old(pw.refCount) + 1, isOpen := true)]
  {
    pw.IncRef();
  }

  method DecRefFlags(pw: PartWrapper, ghost parts: set<PartWrapper>) returns (deleted: bool)
    requires pw in parts && pw.isOpen
    modifies pw`refCount, pw`isOpen
    ensures var n := old(pw.refCount) - 1;
            FlagsOf(parts) == old(FlagsOf(parts))[pw := old(FlagsOf(parts)[pw]).(refCount := n, isOpen := n > 0)]
  {
    deleted := pw.DecRef();
  }

  lemma {:induction false} IsOpen(ids: Ids, flags: map<PartWrapper, Flags>, s: PL.State, pw: PartWrapper)
    requires ShowsParts(ids, flags, s) && Reachable(s) && pw in ids && ids[pw] in PL.Listed(s)
    ensures flags[pw].isOpen
  {
    ReachableIsSafe(s);
    PL.ListedPartIsSafe(s, ids[pw]);
    assert ShowsPart(pw, flags[pw], ids[pw], s);
  }

  /** A query gives its reference back. */
  method ReleasePart(db: D.Datadb, pw: PartWrapper, ghost ids: Ids, ghost s: PL.State) returns (deleted: bool, ghost s': PL.State)
    requires Shows(db, ids, s) && pw in ids && ids[pw] in s.readers
    modifies pw`refCount, pw`isOpen
    ensures Lead(PL.Up(s), [PL.ReleasePart(ids[pw])], PL.Up(s')) && Shows(db, ids, s')
  {
    ghost var flags := FlagsOf(ids.Keys);
    s' := ReleasePartStep(ListsOf(db), ids, flags, s, pw);
    assert flags[pw].isOpen;
    deleted := DecRefFlags(pw, ids.Keys);
  }

  // ---------- The names in parts.json ----------

  lemma {:induction false} FileNameIn(pws: Wrappers, n: nat)
    ensures n in FileNames(pws) <==> exists pw :: pw in pws && !pw.isInmemory && pw.name == n
  {
    if pws != [] {
      var front, last := pws[..|pws| - 1], pws[|pws| - 1];
      FileNameIn(front, n);
      assert pws == front + [last];
    }
  }

  /** The stored names are those of the model; after a crash, exactly these parts are opened. */
  lemma {:induction false} NamesAgree(db: D.Datadb, ids: Ids, s: PL.State)
    requires Shows(db, ids, s)
    ensures SetOf(db.partNames) == s.partsJson
  {
    ReachableIsSafe(s);
    forall n: nat
      ensures n in db.partNames <==> n in s.partsJson
    {
      NameAgrees(db, ids, s, n);
    }
  }

  lemma {:induction false} NameAgrees(db: D.Datadb, ids: Ids, s: PL.State, n: nat)
    requires Shows(db, ids, s) && PL.ListsInv(s.parts, s.inmemoryParts, s.smallParts, s.bigParts, s.nextId)
    requires PL.JsonInv(s.parts, s.smallParts + s.bigParts, s.partsJson, s.dirOwner)
    ensures n in db.partNames <==> n in s.partsJson
  {
    NameIsListed(db, n);
    if n in db.partNames {
      var pw :| (pw in db.smallParts || pw in db.bigParts) && !pw.isInmemory && pw.name == n;
      ShownName(ids, FlagsOf(ids.Keys), s, pw);
    }
    if n in s.partsJson {
      var pw := NamedPart(ListsOf(db), ids, s, n);
      ShownName(ids, FlagsOf(ids.Keys), s, pw);
    }
  }

  lemma {:induction false} NameIsListed(db: D.Datadb, n: nat)
    requires db.Valid()
    ensures n in db.partNames <==> exists pw :: (pw in db.smallParts || pw in db.bigParts) && !pw.isInmemory && pw.name == n
  {
    FileNameIn(db.smallParts, n);
    FileNameIn(db.bigParts, n);
    assert n in db.partNames <==> n in multiset(db.partNames);
    assert n in multiset(FileNames(db.smallParts)) + multiset(FileNames(db.bigParts)) <==> n in FileNames(db.smallParts) || n in FileNames(db.bigParts);
  }

  lemma {:induction false} ShownName(ids: Ids, flags: map<PartWrapper, Flags>, s: PL.State, pw: PartWrapper)
    requires ShowsParts(ids, flags, s) && pw in ids
    ensures ids[pw] in s.parts && s.parts[ids[pw]].IsFile() == !pw.isInmemory
    ensures !pw.isInmemory ==> s.parts[ids[pw]].name == pw.name
  {
    assert ShowsPart(pw, flags[pw], ids[pw], s);
  }

  lemma {:induction false} NamedPart(lists: Lists, ids: Ids, s: PL.State, n: nat) returns (pw: PartWrapper)
    requires ShowsLists(lists, ids, s) && n in s.partsJson
    requires PL.JsonInv(s.parts, s.smallParts + s.bigParts, s.partsJson, s.dirOwner) && PL.ListsInv(s.parts, s.inmemoryParts, s.smallParts, s.bigParts, s.nextId)
    ensures pw in ids && (pw in lists.small || pw in lists.big)
    ensures ids[pw] in s.parts && s.parts[ids[pw]].name == n && s.parts[ids[pw]].IsFile()
  {
    var p := s.dirOwner[n].p;
    pw :| pw in ids && ids[pw] == p && (pw in lists.small || pw in lists.big);
  }
}
