/** The life of parts: ingestion, merging, deletion, crashes and restarts, as a state machine.

    Every step is one section of the storage under its lock, or one file system operation.
    Log entries are told apart by a number, so "no row is lost or repeated" is a statement
    about sets. The fields marked as auxiliary are not in the storage: they record who holds
    what and never influence a step. */
module PartLifecycle {
  import opened Maps

  type RowId = nat
  type PartId = nat
  type MergeId = nat
  type Name = nat

  datatype PartType = Inmemory | Small | Big

  /** What never changes about an open part; its name is the name of its directory. */
  datatype Part = Part(rows: set<RowId>, partType: PartType, name: Name, size: nat, flushDeadline: int)
  {
    predicate IsFile() {
      partType != Inmemory
    }
  }

  datatype Phase =
    | Claimed
    | Writing(dst: PartType, name: Name)
    | Written(dst: PartType, name: Name)
      // After the swap, or after giving up: the sources still to be dropped.
    | Finishing(left: set<PartId>)
  {
    predicate HasDst() {
      Writing? || Written?
    }
  }

  datatype Merge = Merge(srcs: set<PartId>, isFinal: bool, phase: Phase)

  /** A directory is incomplete while it is written and while it is removed. */
  datatype Dir = Partial | Complete(rows: set<RowId>)

  datatype DirOwner = PartDir(p: PartId) | MergeDir(m: MergeId) | Removing

  datatype State = State(
    parts: map<PartId, Part>,
    // the fields of the parts that change
    refCount: map<PartId, int>, mustDrop: set<PartId>, isInMerge: set<PartId>,
    inmemoryParts: set<PartId>, smallParts: set<PartId>, bigParts: set<PartId>,
    merges: map<MergeId, Merge>,
    readers: multiset<PartId>,
    disk: map<Name, Dir>,
    partsJson: set<Name>,
    mergeIdx: Name,
    closing: bool,
    // auxiliary
    nextId: PartId,
    owner: map<PartId, MergeId>,
    dropping: set<PartId>,
    dirOwner: map<Name, DirOwner>,
    deadlines: map<RowId, int>)

  datatype World =
    | Up(s: State)
    | Down(disk: map<Name, Dir>, partsJson: set<Name>, deadlines: map<RowId, int>)
    | Panicked

  // ---------- What merges work on ----------

  /** The rows a merge of these parts writes; that merging keeps rows is shown in BlockMerge. */
  ghost function UnionRows(parts: map<PartId, Part>, ids: set<PartId>): set<RowId> {
    set p, r | p in ids && p in parts && r in parts[p].rows :: r
  }

  ghost predicate AreAllInmemoryParts(parts: map<PartId, Part>, ids: set<PartId>) {
    forall p :: p in ids && p in parts ==> parts[p].partType == Inmemory
  }

  function GetDstPartType(dstPartSize: nat, allInmemory: bool, isFinal: bool, maxSmall: nat, maxInmemory: nat): PartType {
    if dstPartSize > maxSmall then Big
    else if isFinal || dstPartSize > maxInmemory then Small
    else if !allInmemory then Small
    else Inmemory
  }

  /** The earliest of the deadlines of the parts in memory and of `now`, the next flush time from now. */
  ghost predicate IsFlushDeadline(parts: map<PartId, Part>, ids: set<PartId>, now: int, d: int) {
    && d <= now
    && (forall p :: p in ids && p in parts && parts[p].partType == Inmemory ==> d <= parts[p].flushDeadline)
    && (d == now || exists p :: p in ids && p in parts && parts[p].partType == Inmemory && d == parts[p].flushDeadline)
  }

  ghost function Names(parts: map<PartId, Part>, ids: set<PartId>): set<Name> {
    set p | p in ids && p in parts :: parts[p].name
  }

  /** Sources can be read to the end: they are open and their files are complete. */
  ghost predicate Readable(s: State, ids: set<PartId>) {
    forall p :: p in ids ==>
                  && p in s.parts && p in s.refCount && s.refCount[p] > 0
                  && (s.parts[p].IsFile() ==>
                        s.parts[p].name in s.disk && s.disk[s.parts[p].name] == Complete(s.parts[p].rows))
  }

  // ---------- Steps ----------

  datatype Step =
    | Ingest(rows: set<RowId>, size: nat, deadline: int)
    | Claim(groups: map<MergeId, set<PartId>>, claim: map<PartId, MergeId>, isFinal: bool)
    | BeginWrite(m: MergeId, dst: PartType, dstPartSize: nat, maxSmall: nat, maxInmemory: nat)
    | FinishWrite(m: MergeId)
    | Abort(m: MergeId)
    | Swap(m: MergeId, size: nat, now: int, deadline: int)
    | DropSrc(m: MergeId, p: PartId)
    | Release(m: MergeId)
    | AcquirePart(p: PartId)
    | ReleasePart(p: PartId)
    | RemoveDone(name: Name)
    | StartClose(groups: map<MergeId, set<PartId>>, claim: map<PartId, MergeId>)
    | FinishClose
    | Crash(disk: map<Name, Dir>)
    | Reopen(mergeIdx: Name, big: set<Name>)

  ghost function Listed(s: State): set<PartId> {
    s.inmemoryParts + s.smallParts + s.bigParts
  }

  /** Every claimed part is in exactly one of the groups. */
  ghost predicate Grouped(groups: map<MergeId, set<PartId>>, claim: map<PartId, MergeId>) {
    && (forall m, p :: m in groups && p in groups[m] ==> p in claim && claim[p] == m)
    && forall p :: p in claim ==> claim[p] in groups && p in groups[claim[p]]
  }

  ghost predicate Claimable(s: State, groups: map<MergeId, set<PartId>>, claim: map<PartId, MergeId>) {
    && Grouped(groups, claim)
    && (forall m :: m in groups ==> m !in s.merges)
    && forall p :: p in claim ==> p in Listed(s) && p !in s.isInMerge
  }

  /** Steps the storage may take; a final merge is never interrupted. */
  ghost predicate Enabled(w: World, step: Step) {
    match w
    case Panicked => false
    case Down(disk, partsJson, deadlines) =>
      (match step
       // The clock gives names that were not used before.
       case Reopen(mergeIdx, _) => forall n :: n in partsJson ==> n <= mergeIdx
       case Crash(disk') => SurvivesCrash(disk, disk', partsJson)
       case _ => false)
    case Up(s) =>
      (match step
       case Ingest(rows, _, _) => !s.closing && rows !! s.deadlines.Keys
       case Claim(groups, claim, _) => !s.closing && Claimable(s, groups, claim)
       case BeginWrite(m, dst, size, maxSmall, maxInmemory) =>
         && m in s.merges && s.merges[m].phase == Claimed
         && dst == GetDstPartType(size, AreAllInmemoryParts(s.parts, s.merges[m].srcs), s.merges[m].isFinal, maxSmall, maxInmemory)
       case FinishWrite(m) => m in s.merges && s.merges[m].phase.Writing?
       case Abort(m) => m in s.merges && !s.merges[m].isFinal && (s.merges[m].phase == Claimed || s.merges[m].phase.Written?)
       case Swap(m, _, now, deadline) =>
         m in s.merges && s.merges[m].phase.Written? && IsFlushDeadline(s.parts, s.merges[m].srcs, now, deadline)
       case DropSrc(m, p) => m in s.merges && s.merges[m].phase.Finishing? && p in s.merges[m].phase.left
       case Release(m) => m in s.merges && s.merges[m].phase == Finishing({})
       case AcquirePart(p) => !s.closing && p in Listed(s)
       case ReleasePart(p) => p in s.readers
       case RemoveDone(n) => n in s.dirOwner && s.dirOwner[n] == Removing
       case StartClose(groups, claim) =>
         && !s.closing && s.merges == map[] && Claimable(s, groups, claim)
         && forall p :: p in claim <==> p in s.inmemoryParts && p !in s.isInMerge
       case FinishClose => s.closing && s.merges == map[] && s.readers == multiset{}
       case Crash(disk') => SurvivesCrash(s.disk, disk', s.partsJson)
       case Reopen(_, _) => false)
  }

  /** The listed directories were synced before they were listed; the others may be in any state. */
  ghost predicate SurvivesCrash(disk: map<Name, Dir>, disk': map<Name, Dir>, partsJson: set<Name>) {
    forall n :: n in partsJson && n in disk ==> n in disk' && disk'[n] == disk[n]
  }

  ghost function Apply(w: World, step: Step): World
    requires Enabled(w, step)
  {
    match w
    case Down(disk, partsJson, deadlines) =>
      (match step
       case Reopen(mergeIdx, big) => DoReopen(disk, partsJson, deadlines, mergeIdx, big)
       case Crash(disk') => Down(disk', partsJson, deadlines))
    case Up(s) =>
      (match step
       case Ingest(rows, size, deadline) => Up(DoIngest(s, rows, size, deadline))
       case Claim(groups, claim, isFinal) => Up(DoClaim(s, groups, claim, isFinal))
       case BeginWrite(m, dst, _, _, _) => DoBeginWrite(s, m, dst)
       case FinishWrite(m) => DoFinishWrite(s, m)
       case Abort(m) => Up(DoAbort(s, m))
       case Swap(m, size, _, deadline) => DoSwap(s, m, size, deadline)
       case DropSrc(m, p) => DoDropSrc(s, m, p)
       case Release(m) => DoRelease(s, m)
       case AcquirePart(p) => DoAcquire(s, p)
       case ReleasePart(p) => DoReleasePart(s, p)
       case RemoveDone(n) => Up(s.(disk := s.disk - {n}, dirOwner := s.dirOwner - {n}))
       case StartClose(groups, claim) => Up(DoClaim(s, groups, claim, true).(closing := true))
       case FinishClose => DoFinishClose(s)
       case Crash(disk') => Down(disk', s.partsJson, s.deadlines))
  }

  /** Puts a new part on its list, which holds the first reference. */
  ghost function AddPart(s: State, part: Part): State {
    var p := s.nextId;
    s.(parts := s.parts[p := part], refCount := s.refCount[p := 1], nextId := p + 1,
       inmemoryParts := s.inmemoryParts + if part.partType == Inmemory then {p} else {},
       smallParts := s.smallParts + if part.partType == Small then {p} else {},
       bigParts := s.bigParts + if part.partType == Big then {p} else {})
  }

  ghost function DoIngest(s: State, rows: set<RowId>, size: nat, deadline: int): State {
    AddPart(s, Part(rows, Inmemory, 0, size, deadline))
    .(deadlines := Tabulate(rows, r => deadline) + s.deadlines)
  }

  ghost function DoClaim(s: State, groups: map<MergeId, set<PartId>>, claim: map<PartId, MergeId>, isFinal: bool): State {
    s.(isInMerge := s.isInMerge + claim.Keys,
       merges := s.merges + NewMerges(groups, isFinal), owner := s.owner + claim)
  }

  ghost function NewMerges(groups: map<MergeId, set<PartId>>, isFinal: bool): (merges: map<MergeId, Merge>)
    ensures merges.Keys == groups.Keys && forall m :: m in groups ==> merges[m] == Merge(groups[m], isFinal, Claimed)
  {
    Tabulate(groups.Keys, m => Merge(if m in groups then groups[m] else {}, isFinal, Claimed))
  }

  ghost function SetPhase(s: State, m: MergeId, phase: Phase): State
    requires m in s.merges
  {
    s.(merges := s.merges[m := s.merges[m].(phase := phase)])
  }

  /** Fails on sources that are not claimed or cannot be read, and on a directory that exists already. */
  ghost function DoBeginWrite(s: State, m: MergeId, dst: PartType): (w: World)
    requires m in s.merges
    ensures !w.Down?
  {
    var srcs, name := s.merges[m].srcs, s.mergeIdx + 1;
    if !Readable(s, srcs) || !(srcs <= s.isInMerge) then Panicked
    else if dst != Inmemory && name in s.disk then Panicked
    else Up(WithDst(s, m, dst, name))
  }

  ghost function WithDst(s: State, m: MergeId, dst: PartType, name: Name): State
    requires m in s.merges
  {
    var s' := SetPhase(s, m, Writing(dst, name)).(mergeIdx := name);
    if dst == Inmemory then s' else s'.(disk := s.disk[name := Partial], dirOwner := s.dirOwner[name := MergeDir(m)])
  }

  ghost function DoFinishWrite(s: State, m: MergeId): (w: World)
    requires m in s.merges && s.merges[m].phase.Writing?
    ensures !w.Down?
  {
    var srcs, dst, name := s.merges[m].srcs, s.merges[m].phase.dst, s.merges[m].phase.name;
    var s' := SetPhase(s, m, Written(dst, name));
    if !Readable(s, srcs) then Panicked
    else if dst == Inmemory then Up(s')
    else Up(s'.(disk := s.disk[name := Complete(UnionRows(s.parts, srcs))]))
  }

  ghost function StartRemove(s: State, name: Name): State {
    s.(disk := s.disk[name := Partial], dirOwner := s.dirOwner[name := Removing])
  }

  ghost function DoAbort(s: State, m: MergeId): State
    requires m in s.merges
  {
    var phase := s.merges[m].phase;
    var s' := SetPhase(s, m, Finishing({}));
    if phase.Written? && phase.dst != Inmemory then StartRemove(s', phase.name) else s'
  }

  /** Takes the sources of a merge off the lists. */
  ghost function Unlisted(s: State, m: MergeId): State
    requires m in s.merges
  {
    var srcs := s.merges[m].srcs;
    SetPhase(s, m, Finishing(srcs)).(
      dropping := s.dropping + srcs,
      inmemoryParts := s.inmemoryParts - srcs, smallParts := s.smallParts - srcs, bigParts := s.bigParts - srcs)
  }

  /** The lists and parts.json change in one step, under the lock. Fails when not every source
      was listed. An empty result is not listed. */
  ghost function DoSwap(s: State, m: MergeId, size: nat, deadline: int): (w: World)
    requires m in s.merges && s.merges[m].phase.Written?
    ensures !w.Down?
  {
    var srcs, dst, name, rows := s.merges[m].srcs, s.merges[m].phase.dst, s.merges[m].phase.name, UnionRows(s.parts, s.merges[m].srcs);
    var removedInmemory := |s.inmemoryParts| - |s.inmemoryParts - srcs|;
    if removedInmemory + RemovedFiles(s, m) != |srcs| then Panicked
    else if rows == {} then Up(SwappedNothing(s, m))
    else if dst == Inmemory then Up(SwappedMemory(s, m, Part(rows, dst, 0, size, deadline)))
    else Up(SwappedFile(s, m, Part(rows, dst, name, size, 0)))
  }

  ghost function RemovedFiles(s: State, m: MergeId): int
    requires m in s.merges
  {
    var srcs := s.merges[m].srcs;
    (|s.smallParts| - |s.smallParts - srcs|) + (|s.bigParts| - |s.bigParts - srcs|)
  }

  ghost function SwappedNothing(s: State, m: MergeId): State
    requires m in s.merges && s.merges[m].phase.Written?
  {
    var s' := WithNames(Unlisted(s, m), RemovedFiles(s, m) > 0);
    if s.merges[m].phase.dst == Inmemory then s' else StartRemove(s', s.merges[m].phase.name)
  }

  ghost function SwappedMemory(s: State, m: MergeId, part: Part): State
    requires m in s.merges
  {
    WithNames(AddPart(Unlisted(s, m), part), RemovedFiles(s, m) > 0)
  }

  ghost function SwappedFile(s: State, m: MergeId, part: Part): State
    requires m in s.merges
  {
    WithNames(AddPart(Unlisted(s, m), part), true).(dirOwner := s.dirOwner[part.name := PartDir(s.nextId)])
  }

  /** Stores the names of the file parts. */
  ghost function WithNames(s: State, write: bool): State {
    if write then s.(partsJson := Names(s.parts, s.smallParts + s.bigParts)) else s
  }

  /** Gives one reference back; the last one deletes the directory of a dropped part. */
  ghost function DecRef(s: State, p: PartId): (w: World)
    ensures !w.Down?
  {
    if p !in s.parts || p !in s.refCount || s.refCount[p] <= 0 then Panicked
    else
      var n := s.refCount[p] - 1;
      var s' := s.(refCount := s.refCount[p := n]);
      if n == 0 && s.parts[p].IsFile() && p in s.mustDrop then Up(StartRemove(s', s.parts[p].name)) else Up(s')
  }

  ghost function DoDropSrc(s: State, m: MergeId, p: PartId): (w: World)
    requires m in s.merges && s.merges[m].phase.Finishing?
    ensures !w.Down?
  {
    var s' := SetPhase(s, m, Finishing(s.merges[m].phase.left - {p}));
    DecRef(s'.(mustDrop := s.mustDrop + {p}, dropping := s.dropping - {p}), p)
  }

  ghost function DoRelease(s: State, m: MergeId): (w: World)
    requires m in s.merges
    ensures !w.Down?
  {
    var srcs := s.merges[m].srcs;
    if !(srcs <= s.isInMerge) then Panicked
    else Up(s.(isInMerge := s.isInMerge - srcs, merges := s.merges - {m}, owner := s.owner - srcs))
  }

  ghost function DoAcquire(s: State, p: PartId): (w: World)
    ensures !w.Down?
  {
    if p !in s.refCount || s.refCount[p] <= 0 then Panicked
    else Up(s.(refCount := s.refCount[p := s.refCount[p] + 1], readers := s.readers + multiset{p}))
  }

  ghost function DoReleasePart(s: State, p: PartId): (w: World)
    ensures !w.Down?
  {
    DecRef(s.(readers := s.readers - multiset{p}), p)
  }

  ghost function DoFinishClose(s: State): World {
    if s.inmemoryParts != {} || exists p :: p in Listed(s) && (p !in s.refCount || s.refCount[p] != 1) then Panicked
    else
      Down(s.disk - Names(s.parts, Listed(s) * s.mustDrop), s.partsJson, s.deadlines)
  }

  ghost function OpenedPart(disk: map<Name, Dir>, n: Name, big: set<Name>): Part {
    Part(if n in disk && disk[n].Complete? then disk[n].rows else {}, if n in big then Big else Small, n, 0, 0)
  }

  /** Removes the directories that are not listed and opens the others. */
  ghost function DoReopen(disk: map<Name, Dir>, partsJson: set<Name>, deadlines: map<RowId, int>,
                          mergeIdx: Name, big: set<Name>): World {
    if exists n :: n in partsJson && (n !in disk || disk[n] == Partial) then Panicked
    else Up(Opened(disk, partsJson, deadlines, mergeIdx, big))
  }

  ghost function Opened(disk: map<Name, Dir>, partsJson: set<Name>, deadlines: map<RowId, int>, mergeIdx: Name, big: set<Name>): State {
    State(
      Tabulate(partsJson, n => OpenedPart(disk, n, big)),
      Tabulate(partsJson, n => 1), {}, {},
      {}, partsJson - big, partsJson * big, map[], multiset{},
      Restrict(disk, partsJson), partsJson, mergeIdx, false,
      mergeIdx + 1, map[], {}, Tabulate(partsJson, n => PartDir(n)), deadlines)
  }

  // ---------- The invariant ----------

  ghost predicate ListsInv(parts: map<PartId, Part>, inmemory: set<PartId>, small: set<PartId>, big: set<PartId>, nextId: PartId) {
    && (forall p :: p in parts ==> p < nextId)
    && (forall p :: p in inmemory ==> p in parts && parts[p].partType == Inmemory)
    && (forall p :: p in small ==> p in parts && parts[p].partType == Small)
    && (forall p :: p in big ==> p in parts && parts[p].partType == Big)
  }

  /** A part is referenced by its list, or by the merge that is about to drop it, and by its readers. */
  ghost predicate RefsInv(refCount: map<PartId, int>, held: set<PartId>, readers: multiset<PartId>) {
    && (forall p :: p in refCount ==> refCount[p] == readers[p] + if p in held then 1 else 0)
    && (forall p :: p in readers || p in held ==> p in refCount)
  }

  /** isInMerge marks exactly the sources of active merges, and every part has at most one. */
  ghost predicate ClaimsInv(isInMerge: set<PartId>, owner: map<PartId, MergeId>, merges: map<MergeId, Merge>) {
    && isInMerge == owner.Keys
    && (forall p :: p in owner ==> owner[p] in merges && p in merges[owner[p]].srcs)
    && forall m, p :: m in merges && p in merges[m].srcs ==> p in owner && owner[p] == m
  }

  ghost predicate SourcesInv(parts: map<PartId, Part>, listed: set<PartId>, merges: map<MergeId, Merge>) {
    && (forall m :: m in merges ==> merges[m].srcs <= parts.Keys)
    && (forall m :: m in merges && !merges[m].phase.Finishing? ==> merges[m].srcs <= listed)
    && forall m :: m in merges && merges[m].phase.Finishing? && merges[m].isFinal ==> merges[m].srcs !! listed
  }

  ghost predicate DroppingInv(dropping: set<PartId>, listed: set<PartId>, owner: map<PartId, MergeId>, merges: map<MergeId, Merge>) {
    && dropping !! listed
    && (forall m :: m in merges && merges[m].phase.Finishing? ==> merges[m].phase.left <= dropping && merges[m].phase.left <= merges[m].srcs)
    && forall p :: p in dropping ==>
                     p in owner && owner[p] in merges && merges[owner[p]].phase.Finishing? && p in merges[owner[p]].phase.left
  }

  /** An open file part has its own complete directory. */
  ghost predicate DiskInv(parts: map<PartId, Part>, refCount: map<PartId, int>, disk: map<Name, Dir>, dirOwner: map<Name, DirOwner>) {
    forall p :: p in parts && p in refCount && parts[p].IsFile() && refCount[p] > 0 ==> HasDir(disk, dirOwner, p, parts[p])
  }

  ghost predicate HasDir(disk: map<Name, Dir>, dirOwner: map<Name, DirOwner>, p: PartId, part: Part) {
    && part.name in disk && disk[part.name] == Complete(part.rows)
    && part.name in dirOwner && dirOwner[part.name] == PartDir(p)
  }

  ghost predicate NamesInv(disk: map<Name, Dir>, dirOwner: map<Name, DirOwner>, mergeIdx: Name) {
    disk.Keys == dirOwner.Keys && forall n :: n in disk ==> n <= mergeIdx
  }

  /** A merge into a file has a directory of its own; files are never merged back into memory. */
  ghost predicate WritesInv(parts: map<PartId, Part>, merges: map<MergeId, Merge>, disk: map<Name, Dir>, dirOwner: map<Name, DirOwner>) {
    forall m :: m in merges && merges[m].phase.HasDst() ==> WriteInv(parts, m, merges[m], disk, dirOwner)
  }

  ghost predicate WriteInv(parts: map<PartId, Part>, m: MergeId, merge: Merge, disk: map<Name, Dir>, dirOwner: map<Name, DirOwner>)
    requires merge.phase.HasDst()
  {
    var phase := merge.phase;
    if phase.dst == Inmemory then !merge.isFinal && AreAllInmemoryParts(parts, merge.srcs)
    else
      && phase.name in disk && phase.name in dirOwner && dirOwner[phase.name] == MergeDir(m)
      && (phase.Written? ==> disk[phase.name] == Complete(UnionRows(parts, merge.srcs)))
  }

  /** parts.json names the directories of the listed file parts. */
  ghost predicate JsonInv(parts: map<PartId, Part>, files: set<PartId>, partsJson: set<Name>, dirOwner: map<Name, DirOwner>) {
    && (forall p :: p in files ==> p in parts && parts[p].name in partsJson)
    && (forall n :: n in partsJson ==> n in dirOwner && dirOwner[n].PartDir? && dirOwner[n].p in files
                                       && dirOwner[n].p in parts && parts[dirOwner[n].p].name == n)
  }

  /** No row is in two listed parts. */
  ghost predicate RowsInv(parts: map<PartId, Part>, listed: set<PartId>) {
    forall p, q :: p in listed && q in listed && p != q && p in parts && q in parts ==> parts[p].rows !! parts[q].rows
  }

  /** Rows in memory keep the deadline they came with, or get an earlier one. */
  ghost predicate DeadlinesInv(parts: map<PartId, Part>, inmemory: set<PartId>, deadlines: map<RowId, int>) {
    && (forall p :: p in parts ==> parts[p].rows <= deadlines.Keys)
    && (forall p, r :: p in inmemory && p in parts && r in parts[p].rows && r in deadlines ==> parts[p].flushDeadline <= deadlines[r])
  }

  /** While closing, every part in memory is being written to disk. */
  ghost predicate ClosingInv(closing: bool, merges: map<MergeId, Merge>, inmemory: set<PartId>, owner: map<PartId, MergeId>) {
    closing ==> (forall m :: m in merges ==> merges[m].isFinal) && inmemory <= owner.Keys
  }

  /** Who holds which part. */
  ghost predicate HoldInv(s: State) {
    && ListsInv(s.parts, s.inmemoryParts, s.smallParts, s.bigParts, s.nextId)
    && s.refCount.Keys == s.parts.Keys
    && RefsInv(s.refCount, Listed(s) + s.dropping, s.readers)
    && s.mustDrop !! Listed(s) && s.mustDrop <= s.parts.Keys
    && SourcesInv(s.parts, Listed(s), s.merges)
  }

  /** Which merge holds which part. */
  ghost predicate MergeInv(s: State) {
    && ClaimsInv(s.isInMerge, s.owner, s.merges)
    && DroppingInv(s.dropping, Listed(s), s.owner, s.merges)
    && ClosingInv(s.closing, s.merges, s.inmemoryParts, s.owner)
  }

  /** What is on disk. */
  ghost predicate FilesInv(s: State) {
    && DiskInv(s.parts, s.refCount, s.disk, s.dirOwner)
    && NamesInv(s.disk, s.dirOwner, s.mergeIdx)
    && WritesInv(s.parts, s.merges, s.disk, s.dirOwner)
    && JsonInv(s.parts, s.smallParts + s.bigParts, s.partsJson, s.dirOwner)
  }

  /** Where the rows are. */
  ghost predicate ContentInv(s: State) {
    && RowsInv(s.parts, Listed(s))
    && DeadlinesInv(s.parts, s.inmemoryParts, s.deadlines)
  }

  ghost predicate Inv(s: State) {
    HoldInv(s) && MergeInv(s) && FilesInv(s) && ContentInv(s)
  }

  // ---------- Every step keeps the invariant ----------

  lemma {:induction false} AddPartHold(s: State, part: Part)
    requires HoldInv(s) && s.dropping <= s.parts.Keys
    ensures HoldInv(AddPart(s, part)) && Listed(AddPart(s, part)) == Listed(s) + {s.nextId} && s.nextId !in s.parts
  {
    var s' := AddPart(s, part);
    assert s.nextId !in s.parts;
    assert Listed(s') == Listed(s) + {s.nextId};
    assert Listed(s') + s'.dropping == Listed(s) + s.dropping + {s.nextId};
  }

  lemma {:induction false} AddPartMerges(s: State, part: Part)
    requires MergeInv(s) && s.dropping <= s.parts.Keys && (s.closing ==> part.IsFile())
    requires Listed(AddPart(s, part)) == Listed(s) + {s.nextId} && s.nextId !in s.parts
    ensures MergeInv(AddPart(s, part))
  {
  }

  lemma {:induction false} AddPartFiles(s: State, part: Part)
    requires DiskInv(s.parts, s.refCount, s.disk, s.dirOwner) && s.refCount.Keys == s.parts.Keys && s.nextId !in s.parts
    requires WritesInv(s.parts, s.merges, s.disk, s.dirOwner) && forall m :: m in s.merges ==> s.merges[m].srcs <= s.parts.Keys
    requires part.IsFile() ==> HasDir(s.disk, s.dirOwner, s.nextId, part)
    ensures var s' := AddPart(s, part);
            DiskInv(s'.parts, s'.refCount, s'.disk, s'.dirOwner) && WritesInv(s'.parts, s'.merges, s'.disk, s'.dirOwner)
  {
    var s' := AddPart(s, part);
    UnionsKept(s.parts, s'.parts, s.merges, s.disk, s.dirOwner);
  }

  lemma {:induction false} AddPartContent(s: State, part: Part, deadlines: map<RowId, int>)
    requires ContentInv(s) && Listed(s) <= s.parts.Keys && s.nextId !in s.parts
    requires forall p :: p in Listed(s) ==> s.parts[p].rows !! part.rows
    requires forall r :: r in s.deadlines ==> r in deadlines && deadlines[r] == s.deadlines[r]
    requires part.rows <= deadlines.Keys
    requires part.partType == Inmemory ==> forall r :: r in part.rows ==> part.flushDeadline <= deadlines[r]
    ensures ContentInv(AddPart(s, part).(deadlines := deadlines))
  {
    var s' := AddPart(s, part).(deadlines := deadlines);
    assert Listed(s') == Listed(s) + {s.nextId};
  }

  lemma {:induction false} DroppingAreParts(s: State)
    requires HoldInv(s) && MergeInv(s)
    ensures s.dropping <= s.parts.Keys && Listed(s) <= s.parts.Keys
  {
    forall p | p in s.dropping ensures p in s.parts {
      assert s.merges[s.owner[p]].srcs <= s.parts.Keys;
    }
  }

  /** Merges keep their directories when parts are added. */
  lemma {:induction false} UnionsKept(parts: map<PartId, Part>, parts': map<PartId, Part>, merges: map<MergeId, Merge>,
                   disk: map<Name, Dir>, dirOwner: map<Name, DirOwner>)
    requires WritesInv(parts, merges, disk, dirOwner)
    requires forall m :: m in merges ==> merges[m].srcs <= parts.Keys
    requires forall p :: p in parts ==> p in parts' && parts'[p] == parts[p]
    ensures WritesInv(parts', merges, disk, dirOwner)
  {
    forall m | m in merges && merges[m].phase.HasDst() ensures WriteInv(parts', m, merges[m], disk, dirOwner) {
      assert UnionRows(parts', merges[m].srcs) == UnionRows(parts, merges[m].srcs);
    }
  }

  lemma {:induction false} IngestKeeps(s: State, rows: set<RowId>, size: nat, deadline: int)
    requires Inv(s) && !s.closing && rows !! s.deadlines.Keys
    ensures Inv(DoIngest(s, rows, size, deadline))
  {
    var part := Part(rows, Inmemory, 0, size, deadline);
    var s'' := DoIngest(s, rows, size, deadline);
    AddMemoryPart(s, part);
    AddPartContent(s, part, s''.deadlines);
    assert Listed(s'') == Listed(AddPart(s, part));
  }

  lemma {:induction false} AddMemoryPart(s: State, part: Part)
    requires HoldInv(s) && MergeInv(s) && FilesInv(s) && !s.closing && part.partType == Inmemory
    ensures HoldInv(AddPart(s, part)) && MergeInv(AddPart(s, part)) && FilesInv(AddPart(s, part))
    ensures Listed(s) <= s.parts.Keys && s.nextId !in s.parts
  {
    DroppingAreParts(s);
    AddPartHold(s, part);
    AddPartMerges(s, part);
    AddPartFiles(s, part);
    SameJson(s, part);
  }

  lemma {:induction false} SameJson(s: State, part: Part)
    requires JsonInv(s.parts, s.smallParts + s.bigParts, s.partsJson, s.dirOwner) && part.partType == Inmemory
    requires s.nextId !in s.parts
    ensures var s' := AddPart(s, part); JsonInv(s'.parts, s'.smallParts + s'.bigParts, s.partsJson, s.dirOwner)
  {
  }

  lemma {:induction false} ClaimHold(s: State, groups: map<MergeId, set<PartId>>, claim: map<PartId, MergeId>, isFinal: bool)
    requires HoldInv(s) && Claimable(s, groups, claim)
    ensures HoldInv(DoClaim(s, groups, claim, isFinal))
  {
    var s' := DoClaim(s, groups, claim, isFinal);
    assert Listed(s') == Listed(s);
    forall m | m in groups ensures groups[m] <= Listed(s) {
    }
  }

  lemma {:induction false} ClaimMerges(s: State, groups: map<MergeId, set<PartId>>, claim: map<PartId, MergeId>, isFinal: bool)
    requires MergeInv(s) && Claimable(s, groups, claim) && !s.closing
    ensures MergeInv(DoClaim(s, groups, claim, isFinal))
  {
    assert Listed(DoClaim(s, groups, claim, isFinal)) == Listed(s);
    ClaimOwners(s, groups, claim, isFinal);
    ClaimDropping(s, groups, claim, isFinal);
  }

  lemma {:induction false} ClaimOwners(s: State, groups: map<MergeId, set<PartId>>, claim: map<PartId, MergeId>, isFinal: bool)
    requires ClaimsInv(s.isInMerge, s.owner, s.merges) && Claimable(s, groups, claim)
    ensures var s' := DoClaim(s, groups, claim, isFinal); ClaimsInv(s'.isInMerge, s'.owner, s'.merges)
  {
    var s' := DoClaim(s, groups, claim, isFinal);
    assert s'.owner.Keys == s'.isInMerge;
    forall p | p in s'.owner ensures s'.owner[p] in s'.merges && p in s'.merges[s'.owner[p]].srcs {
      OwnerHasSource(s, groups, claim, isFinal, p);
    }
    forall m, p | m in s'.merges && p in s'.merges[m].srcs ensures p in s'.owner && s'.owner[p] == m {
      SourceIsOwned(s, groups, claim, isFinal, m, p);
    }
  }

  lemma {:induction false} OwnerHasSource(s: State, groups: map<MergeId, set<PartId>>, claim: map<PartId, MergeId>, isFinal: bool, p: PartId)
    requires ClaimsInv(s.isInMerge, s.owner, s.merges) && Claimable(s, groups, claim) && p in DoClaim(s, groups, claim, isFinal).owner
    ensures var s' := DoClaim(s, groups, claim, isFinal); s'.owner[p] in s'.merges && p in s'.merges[s'.owner[p]].srcs
  {
    if p !in claim {
      assert p in s.owner && s.owner[p] !in groups;
    }
  }

  lemma {:induction false} SourceIsOwned(s: State, groups: map<MergeId, set<PartId>>, claim: map<PartId, MergeId>, isFinal: bool,
                      m: MergeId, p: PartId)
    requires ClaimsInv(s.isInMerge, s.owner, s.merges) && Claimable(s, groups, claim)
    requires m in s.merges || m in groups
    requires p in DoClaim(s, groups, claim, isFinal).merges[m].srcs
    ensures var s' := DoClaim(s, groups, claim, isFinal); p in s'.owner && s'.owner[p] == m
  {
    if m !in groups {
      assert p in s.owner && p !in claim;
    }
  }

  lemma {:induction false} ClaimDropping(s: State, groups: map<MergeId, set<PartId>>, claim: map<PartId, MergeId>, isFinal: bool)
    requires DroppingInv(s.dropping, Listed(s), s.owner, s.merges) && Claimable(s, groups, claim)
    ensures var s' := DoClaim(s, groups, claim, isFinal); DroppingInv(s.dropping, Listed(s), s'.owner, s'.merges)
  {
  }

  lemma {:induction false} ClaimKeeps(s: State, groups: map<MergeId, set<PartId>>, claim: map<PartId, MergeId>, isFinal: bool)
    requires Inv(s) && Claimable(s, groups, claim) && !s.closing
    ensures Inv(DoClaim(s, groups, claim, isFinal))
  {
    ClaimHold(s, groups, claim, isFinal);
    ClaimMerges(s, groups, claim, isFinal);
  }

  lemma {:induction false} StartCloseKeeps(s: State, groups: map<MergeId, set<PartId>>, claim: map<PartId, MergeId>)
    requires Inv(s) && Enabled(Up(s), StartClose(groups, claim))
    ensures Inv(DoClaim(s, groups, claim, true).(closing := true))
  {
    ClaimKeeps(s, groups, claim, true);
    ClosingStarts(s, groups, claim);
  }

  lemma {:induction false} ClosingStarts(s: State, groups: map<MergeId, set<PartId>>, claim: map<PartId, MergeId>)
    requires Inv(s) && Enabled(Up(s), StartClose(groups, claim))
    ensures var s' := DoClaim(s, groups, claim, true); ClosingInv(true, s'.merges, s'.inmemoryParts, s'.owner)
  {
    forall p | p in s.inmemoryParts ensures p in claim {
      assert p !in s.owner;
    }
  }

  // The phases of a merge.

  lemma {:induction false} PhaseHold(s: State, m: MergeId, phase: Phase)
    requires HoldInv(s) && m in s.merges
    requires s.merges[m].phase.Finishing? != phase.Finishing? ==> phase.Finishing? && !s.merges[m].isFinal
    ensures HoldInv(SetPhase(s, m, phase))
  {
    assert Listed(SetPhase(s, m, phase)) == Listed(s);
  }

  lemma {:induction false} PhaseMerges(s: State, m: MergeId, phase: Phase)
    requires MergeInv(s) && m in s.merges && !s.merges[m].phase.Finishing? && (phase.Finishing? ==> phase.left == {})
    ensures MergeInv(SetPhase(s, m, phase))
  {
    var s' := SetPhase(s, m, phase);
    assert Listed(s') == Listed(s);
    forall p | p in s.dropping ensures s'.merges[s.owner[p]] == s.merges[s.owner[p]] {
    }
  }

  lemma {:induction false} SourcesReadable(s: State, m: MergeId)
    requires HoldInv(s) && MergeInv(s) && FilesInv(s) && m in s.merges && !s.merges[m].phase.Finishing?
    ensures Readable(s, s.merges[m].srcs) && s.merges[m].srcs <= s.isInMerge
  {
    forall p | p in s.merges[m].srcs
      ensures p in s.refCount && s.refCount[p] > 0
      ensures s.parts[p].IsFile() ==> HasDir(s.disk, s.dirOwner, p, s.parts[p])
    {
      assert p in Listed(s);
    }
  }

  /** A new or unused directory changes hands. */
  lemma {:induction false} OtherDir(s: State, name: Name, dir: Dir, dirOwner: DirOwner)
    requires FilesInv(s) && name <= s.mergeIdx && !dirOwner.PartDir?
    requires name in s.dirOwner ==> !s.dirOwner[name].PartDir?
    requires dirOwner.MergeDir? ==> name !in s.dirOwner || s.dirOwner[name] == dirOwner
    requires forall m :: m in s.merges && s.merges[m].phase.HasDst() && name in s.dirOwner ==> s.dirOwner[name] != MergeDir(m)
    ensures FilesInv(s.(disk := s.disk[name := dir], dirOwner := s.dirOwner[name := dirOwner]))
  {
    var s' := s.(disk := s.disk[name := dir], dirOwner := s.dirOwner[name := dirOwner]);
    forall p | p in s'.parts && p in s'.refCount && s'.parts[p].IsFile() && s'.refCount[p] > 0
      ensures HasDir(s'.disk, s'.dirOwner, p, s'.parts[p])
    {
      assert HasDir(s.disk, s.dirOwner, p, s.parts[p]);
    }
    forall m | m in s'.merges && s'.merges[m].phase.HasDst()
      ensures WriteInv(s'.parts, m, s'.merges[m], s'.disk, s'.dirOwner)
    {
      assert WriteInv(s.parts, m, s.merges[m], s.disk, s.dirOwner);
    }
  }

  lemma {:induction false} BeginWriteFiles(s: State, m: MergeId, dst: PartType)
    requires FilesInv(s) && m in s.merges && s.merges[m].phase == Claimed
    requires dst == Inmemory ==> !s.merges[m].isFinal && AreAllInmemoryParts(s.parts, s.merges[m].srcs)
    ensures FilesInv(WithDst(s, m, dst, s.mergeIdx + 1))
  {
    var s1 := s.(mergeIdx := s.mergeIdx + 1);
    assert s1.mergeIdx !in s1.dirOwner;
    OtherDir(s1, s1.mergeIdx, Partial, MergeDir(m));
  }

  lemma {:induction false} BeginWriteKeeps(s: State, m: MergeId, dst: PartType)
    requires Inv(s) && m in s.merges && s.merges[m].phase == Claimed
    requires dst == Inmemory ==> !s.merges[m].isFinal && AreAllInmemoryParts(s.parts, s.merges[m].srcs)
    ensures Inv(WithDst(s, m, dst, s.mergeIdx + 1))
    ensures DoBeginWrite(s, m, dst) == Up(WithDst(s, m, dst, s.mergeIdx + 1))
  {
    CanBeginWrite(s, m);
    BeginWriteHold(s, m, dst);
    BeginWriteFiles(s, m, dst);
  }

  lemma {:induction false} CanBeginWrite(s: State, m: MergeId)
    requires Inv(s) && m in s.merges && s.merges[m].phase == Claimed
    ensures forall dst :: DoBeginWrite(s, m, dst) == Up(WithDst(s, m, dst, s.mergeIdx + 1))
  {
    SourcesReadable(s, m);
    assert s.mergeIdx + 1 !in s.disk;
  }

  lemma {:induction false} BeginWriteHold(s: State, m: MergeId, dst: PartType)
    requires Inv(s) && m in s.merges && s.merges[m].phase == Claimed
    ensures HoldInv(WithDst(s, m, dst, s.mergeIdx + 1)) && MergeInv(WithDst(s, m, dst, s.mergeIdx + 1))
    ensures ContentInv(WithDst(s, m, dst, s.mergeIdx + 1))
  {
    PhaseHold(s, m, Writing(dst, s.mergeIdx + 1));
    PhaseMerges(s, m, Writing(dst, s.mergeIdx + 1));
    assert Listed(WithDst(s, m, dst, s.mergeIdx + 1)) == Listed(s);
  }

  lemma {:induction false} FinishWriteFiles(s: State, m: MergeId)
    requires FilesInv(s) && m in s.merges && s.merges[m].phase.Writing?
    ensures var phase := s.merges[m].phase;
            var s' := SetPhase(s, m, Written(phase.dst, phase.name));
            FilesInv(if phase.dst == Inmemory then s'
                     else s'.(disk := s.disk[phase.name := Complete(UnionRows(s.parts, s.merges[m].srcs))]))
  {
    var phase := s.merges[m].phase;
    assert WriteInv(s.parts, m, s.merges[m], s.disk, s.dirOwner);
    if phase.dst != Inmemory {
      var disk' := s.disk[phase.name := Complete(UnionRows(s.parts, s.merges[m].srcs))];
      forall p | p in s.parts && p in s.refCount && s.parts[p].IsFile() && s.refCount[p] > 0
        ensures HasDir(disk', s.dirOwner, p, s.parts[p])
      {
        assert HasDir(s.disk, s.dirOwner, p, s.parts[p]);
      }
      forall k | k in s.merges && s.merges[k].phase.HasDst() && k != m
        ensures WriteInv(s.parts, k, s.merges[k], disk', s.dirOwner)
      {
        assert WriteInv(s.parts, k, s.merges[k], s.disk, s.dirOwner);
      }
    }
  }

  lemma {:induction false} FinishWriteKeeps(s: State, m: MergeId)
    requires Inv(s) && m in s.merges && s.merges[m].phase.Writing?
    ensures var w := DoFinishWrite(s, m); w.Up? && Inv(w.s)
  {
    var phase := Written(s.merges[m].phase.dst, s.merges[m].phase.name);
    SourcesReadable(s, m);
    PhaseHold(s, m, phase);
    PhaseMerges(s, m, phase);
    FinishWriteFiles(s, m);
  }

  lemma {:induction false} FilesAfterPhase(s: State, m: MergeId, phase: Phase)
    requires FilesInv(s) && m in s.merges && !phase.HasDst()
    ensures FilesInv(SetPhase(s, m, phase))
  {
  }

  lemma {:induction false} AbortKeeps(s: State, m: MergeId)
    requires Inv(s) && Enabled(Up(s), Abort(m))
    ensures Inv(DoAbort(s, m))
  {
    var phase := s.merges[m].phase;
    PhaseHold(s, m, Finishing({}));
    PhaseMerges(s, m, Finishing({}));
    FilesAfterPhase(s, m, Finishing({}));
    if phase.Written? && phase.dst != Inmemory {
      assert WriteInv(s.parts, m, s.merges[m], s.disk, s.dirOwner);
      OtherDir(SetPhase(s, m, Finishing({})), phase.name, Partial, Removing);
    }
  }

  // References.

  /** The state after giving back one reference, with no directory removed yet. */
  ghost function Decremented(s: State, p: PartId): State
    requires p in s.refCount
  {
    s.(refCount := s.refCount[p := s.refCount[p] - 1])
  }

  lemma {:induction false} DecRefFiles(s: State, p: PartId)
    requires FilesInv(s) && p in s.parts && p in s.refCount && s.refCount[p] > 0
    requires s.refCount[p] == 1 && p in s.mustDrop ==> p !in s.smallParts + s.bigParts
    ensures DecRef(s, p).Up? && FilesInv(DecRef(s, p).s)
    ensures DecRef(s, p).s == Decremented(s, p).(disk := DecRef(s, p).s.disk, dirOwner := DecRef(s, p).s.dirOwner)
  {
    var s1 := Decremented(s, p);
    var part := s.parts[p];
    if part.IsFile() {
      assert HasDir(s.disk, s.dirOwner, p, part);
    }
    if s1.refCount[p] == 0 && part.IsFile() && p in s.mustDrop {
      RemoveFiles(s1, p);
    }
  }

  /** Nobody else uses the directory of a part that is closed for good. */
  lemma {:induction false} RemoveFiles(s: State, p: PartId)
    requires p in s.parts && p in s.refCount && s.refCount[p] == 0 && FilesInv(s)
    requires p !in s.smallParts + s.bigParts
    requires s.parts[p].name in s.dirOwner && s.dirOwner[s.parts[p].name] == PartDir(p)
    ensures FilesInv(StartRemove(s, s.parts[p].name))
  {
    var name := s.parts[p].name;
    var s' := StartRemove(s, name);
    forall q | q in s.parts && q in s.refCount && s.parts[q].IsFile() && s.refCount[q] > 0
      ensures HasDir(s'.disk, s'.dirOwner, q, s.parts[q])
    {
      assert HasDir(s.disk, s.dirOwner, q, s.parts[q]);
    }
    forall m | m in s.merges && s.merges[m].phase.HasDst()
      ensures WriteInv(s.parts, m, s.merges[m], s'.disk, s'.dirOwner)
    {
      assert WriteInv(s.parts, m, s.merges[m], s.disk, s.dirOwner);
    }
  }

  ghost function BeforeDrop(s: State, m: MergeId, p: PartId): State
    requires m in s.merges && s.merges[m].phase.Finishing?
  {
    SetPhase(s, m, Finishing(s.merges[m].phase.left - {p})).(mustDrop := s.mustDrop + {p}, dropping := s.dropping - {p})
  }

  lemma {:induction false} DropHold(s: State, m: MergeId, p: PartId)
    requires HoldInv(s) && MergeInv(s) && m in s.merges && s.merges[m].phase.Finishing? && p in s.merges[m].phase.left
    ensures p in s.parts && p in s.refCount && s.refCount[p] > 0 && p !in Listed(s)
    ensures HoldInv(Decremented(BeforeDrop(s, m, p), p))
  {
    var s' := Decremented(BeforeDrop(s, m, p), p);
    assert p in s.dropping;
    assert Listed(s') == Listed(s);
    assert Listed(s) + s'.dropping == Listed(s) + s.dropping - {p};
  }

  lemma {:induction false} DropMerges(s: State, m: MergeId, p: PartId)
    requires MergeInv(s) && m in s.merges && s.merges[m].phase.Finishing? && p in s.merges[m].phase.left
    ensures MergeInv(BeforeDrop(s, m, p))
  {
    var s' := BeforeDrop(s, m, p);
    assert Listed(s') == Listed(s);
    assert p in s.dropping && s.owner[p] == m;
    forall k | k in s.merges && k != m && s.merges[k].phase.Finishing? ensures p !in s.merges[k].phase.left {
    }
  }

  lemma {:induction false} DropSrcKeeps(s: State, m: MergeId, p: PartId)
    requires Inv(s) && Enabled(Up(s), DropSrc(m, p))
    ensures DoDropSrc(s, m, p).Up? && Inv(DoDropSrc(s, m, p).s)
  {
    DropHold(s, m, p);
    DropMerges(s, m, p);
    DropFiles(s, m, p);
    DecRefKeeps(BeforeDrop(s, m, p), p);
  }

  lemma {:induction false} DropFiles(s: State, m: MergeId, p: PartId)
    requires FilesInv(s) && ContentInv(s) && m in s.merges && s.merges[m].phase.Finishing?
    ensures FilesInv(BeforeDrop(s, m, p)) && ContentInv(BeforeDrop(s, m, p)) && Listed(BeforeDrop(s, m, p)) == Listed(s)
  {
    FilesAfterPhase(s, m, Finishing(s.merges[m].phase.left - {p}));
    assert Listed(BeforeDrop(s, m, p)) == Listed(s);
  }

  lemma {:induction false} DecRefKeeps(s: State, p: PartId)
    requires p in s.parts && p in s.refCount && s.refCount[p] > 0 && p !in Listed(s)
    requires HoldInv(Decremented(s, p)) && MergeInv(s) && FilesInv(s) && ContentInv(s)
    ensures DecRef(s, p).Up? && Inv(DecRef(s, p).s)
  {
    DecRefFiles(s, p);
    assert Listed(Decremented(s, p)) == Listed(s);
    RestKept(Decremented(s, p), DecRef(s, p).s);
  }

  /** Changes of the disk alone. */
  lemma {:induction false} RestKept(s: State, s': State)
    requires s' == s.(disk := s'.disk, dirOwner := s'.dirOwner)
    ensures HoldInv(s) ==> HoldInv(s')
    ensures MergeInv(s) ==> MergeInv(s')
    ensures ContentInv(s) ==> ContentInv(s')
  {
    assert Listed(s') == Listed(s);
  }

  lemma {:induction false} ReleasePartKeeps(s: State, p: PartId)
    requires Inv(s) && p in s.readers
    ensures DoReleasePart(s, p).Up? && Inv(DoReleasePart(s, p).s)
  {
    var s1 := s.(readers := s.readers - multiset{p});
    assert Listed(s1) == Listed(s) == Listed(Decremented(s1, p));
    assert HoldInv(Decremented(s1, p));
    DecRefFiles(s1, p);
    RestKept(Decremented(s1, p), DoReleasePart(s, p).s);
  }

  lemma {:induction false} AcquireKeeps(s: State, p: PartId)
    requires Inv(s) && p in Listed(s)
    ensures DoAcquire(s, p).Up? && Inv(DoAcquire(s, p).s)
  {
    assert s.refCount[p] >= 1;
    var s' := DoAcquire(s, p).s;
    assert Listed(s') == Listed(s);
  }

  lemma {:induction false} ReleaseHold(s: State, m: MergeId)
    requires HoldInv(s) && MergeInv(s) && m in s.merges && s.merges[m].phase == Finishing({})
    ensures DoRelease(s, m).Up? && HoldInv(DoRelease(s, m).s)
  {
    assert forall p :: p in s.merges[m].srcs ==> p in s.owner;
    assert Listed(DoRelease(s, m).s) == Listed(s);
  }

  lemma {:induction false} ReleaseMerges(s: State, m: MergeId)
    requires HoldInv(s) && MergeInv(s) && m in s.merges && s.merges[m].phase == Finishing({})
    requires s.closing ==> s.merges[m].srcs !! s.inmemoryParts
    ensures DoRelease(s, m).Up? && MergeInv(DoRelease(s, m).s)
  {
    assert forall p :: p in s.merges[m].srcs ==> p in s.owner;
    assert Listed(DoRelease(s, m).s) == Listed(s);
    ReleaseClaims(s.isInMerge, s.owner, s.merges, m);
  }

  lemma {:induction false} ReleaseClaims(isInMerge: set<PartId>, owner: map<PartId, MergeId>, merges: map<MergeId, Merge>, m: MergeId)
    requires ClaimsInv(isInMerge, owner, merges) && m in merges
    ensures ClaimsInv(isInMerge - merges[m].srcs, owner - merges[m].srcs, merges - {m})
  {
    assert (owner - merges[m].srcs).Keys == isInMerge - merges[m].srcs;
    forall p | p in owner - merges[m].srcs ensures owner[p] != m {
      assert p in merges[owner[p]].srcs;
    }
    forall k, p | k in merges && k != m && p in merges[k].srcs ensures p !in merges[m].srcs {
      assert owner[p] == k;
    }
  }

  lemma {:induction false} RemoveDoneKeeps(s: State, name: Name)
    requires Inv(s) && name in s.dirOwner && s.dirOwner[name] == Removing
    ensures Inv(s.(disk := s.disk - {name}, dirOwner := s.dirOwner - {name}))
  {
    var s' := s.(disk := s.disk - {name}, dirOwner := s.dirOwner - {name});
    RestKept(s, s');
    forall p | p in s.parts && p in s.refCount && s.parts[p].IsFile() && s.refCount[p] > 0
      ensures HasDir(s'.disk, s'.dirOwner, p, s.parts[p])
    {
      assert HasDir(s.disk, s.dirOwner, p, s.parts[p]);
    }
    forall m | m in s.merges && s.merges[m].phase.HasDst()
      ensures WriteInv(s.parts, m, s.merges[m], s'.disk, s'.dirOwner)
    {
      assert WriteInv(s.parts, m, s.merges[m], s.disk, s.dirOwner);
    }
  }

  lemma {:induction false} ReleaseKeeps(s: State, m: MergeId)
    requires Inv(s) && m in s.merges && s.merges[m].phase == Finishing({})
    ensures DoRelease(s, m).Up? && Inv(DoRelease(s, m).s)
  {
    ReleaseHold(s, m);
    ReleaseMerges(s, m);
    assert Listed(DoRelease(s, m).s) == Listed(s);
  }

  // Swapping sources with the result.

  lemma {:induction false} RemovedCount(a: set<PartId>, drop: set<PartId>)
    ensures |a| - |a - drop| == |a * drop|
    ensures |a| == |a - drop| ==> a - drop == a
  {
    assert a == (a - drop) + (a * drop);
    if |a * drop| == 0 {
      assert a - drop == a;
    }
  }

  lemma {:induction false} AllRemoved(s: State, srcs: set<PartId>)
    requires HoldInv(s) && srcs <= Listed(s)
    ensures |s.inmemoryParts * srcs| + |s.smallParts * srcs| + |s.bigParts * srcs| == |srcs|
  {
    var x, y, z := s.inmemoryParts * srcs, s.smallParts * srcs, s.bigParts * srcs;
    assert srcs == x + (y + z);
    assert x * (y + z) == {} && y * z == {};
  }

  lemma {:induction false} UnlistedHold(s: State, m: MergeId)
    requires HoldInv(s) && MergeInv(s) && m in s.merges && !s.merges[m].phase.Finishing?
    ensures HoldInv(Unlisted(s, m)) && Listed(Unlisted(s, m)) == Listed(s) - s.merges[m].srcs
  {
    var s', srcs := Unlisted(s, m), s.merges[m].srcs;
    assert Listed(s') == Listed(s) - srcs;
    assert Listed(s') + s'.dropping == Listed(s) + s.dropping;
    forall k | k in s.merges && k != m ensures s.merges[k].srcs !! srcs {
      ClaimedOnce(s, m, k);
    }
  }

  /** A part is claimed by at most one merge. */
  lemma {:induction false} ClaimedOnce(s: State, m: MergeId, k: MergeId)
    requires MergeInv(s) && m in s.merges && k in s.merges && m != k
    ensures s.merges[m].srcs !! s.merges[k].srcs
  {
    forall p | p in s.merges[m].srcs ensures p !in s.merges[k].srcs {
      assert s.owner[p] == m;
    }
  }

  lemma {:induction false} UnlistedMerges(s: State, m: MergeId)
    requires MergeInv(s) && m in s.merges && !s.merges[m].phase.Finishing?
    requires Listed(Unlisted(s, m)) == Listed(s) - s.merges[m].srcs
    ensures MergeInv(Unlisted(s, m))
  {
  }

  lemma {:induction false} UnlistedContent(s: State, m: MergeId)
    requires ContentInv(s) && m in s.merges && Listed(Unlisted(s, m)) == Listed(s) - s.merges[m].srcs
    ensures ContentInv(Unlisted(s, m))
  {
  }

  lemma {:induction false} UnlistedFiles(s: State, m: MergeId)
    requires FilesInv(s) && m in s.merges
    ensures var s' := Unlisted(s, m);
            && DiskInv(s'.parts, s'.refCount, s'.disk, s'.dirOwner) && NamesInv(s'.disk, s'.dirOwner, s'.mergeIdx)
            && WritesInv(s'.parts, s'.merges, s'.disk, s'.dirOwner)
  {
  }

  /** Writing the names of open file parts. */
  lemma {:induction false} NamesWritten(s: State)
    requires DiskInv(s.parts, s.refCount, s.disk, s.dirOwner)
    requires forall p :: p in s.smallParts + s.bigParts ==>
                           p in s.parts && p in s.refCount && s.parts[p].IsFile() && s.refCount[p] > 0
    ensures JsonInv(s.parts, s.smallParts + s.bigParts, Names(s.parts, s.smallParts + s.bigParts), s.dirOwner)
  {
    forall p | p in s.smallParts + s.bigParts ensures HasDir(s.disk, s.dirOwner, p, s.parts[p]) {
    }
  }

  lemma {:induction false} FilesAreOpen(s: State)
    requires HoldInv(s)
    ensures forall p :: p in s.smallParts + s.bigParts ==>
                          p in s.parts && p in s.refCount && s.parts[p].IsFile() && s.refCount[p] > 0
  {
    assert forall p :: p in s.smallParts + s.bigParts ==> p in Listed(s);
  }

  /** After the sources are taken off the lists, parts.json is written only when files were removed. */
  lemma {:induction false} UnlistedNames(s: State, m: MergeId)
    requires m in s.merges && HoldInv(Unlisted(s, m)) && FilesInv(s)
    ensures var s' := Unlisted(s, m);
            FilesInv(WithNames(s', RemovedFiles(s, m) > 0))
  {
    var s', srcs := Unlisted(s, m), s.merges[m].srcs;
    UnlistedFiles(s, m);
    RemovedCount(s.smallParts, srcs);
    RemovedCount(s.bigParts, srcs);
    if RemovedFiles(s, m) > 0 {
      FilesAreOpen(s');
      NamesWritten(s');
    }
  }

  lemma {:induction false} NoneRemoved(s: State, m: MergeId)
    requires HoldInv(s) && MergeInv(s) && m in s.merges && s.merges[m].phase.Written?
    ensures |s.inmemoryParts| - |s.inmemoryParts - s.merges[m].srcs| + RemovedFiles(s, m) == |s.merges[m].srcs|
  {
    var srcs := s.merges[m].srcs;
    RemovedCount(s.inmemoryParts, srcs);
    RemovedCount(s.smallParts, srcs);
    RemovedCount(s.bigParts, srcs);
    AllRemoved(s, srcs);
  }

  /** The result holds the rows of the sources, so no row of another listed part. */
  lemma {:induction false} UnionIsNew(s: State, m: MergeId, part: Part)
    requires HoldInv(s) && MergeInv(s) && ContentInv(s) && m in s.merges && s.merges[m].phase.Written?
    requires part.rows == UnionRows(s.parts, s.merges[m].srcs)
    ensures part.rows <= s.deadlines.Keys
    ensures forall p :: p in Listed(s) - s.merges[m].srcs ==> s.parts[p].rows !! part.rows
  {
    var srcs := s.merges[m].srcs;
    assert srcs <= Listed(s);
    forall r | r in part.rows ensures r in s.deadlines {
      var p :| p in srcs && p in s.parts && r in s.parts[p].rows;
      assert s.parts[p].rows <= s.deadlines.Keys;
    }
    forall p | p in Listed(s) - srcs ensures s.parts[p].rows !! part.rows {
      forall r | r in part.rows ensures r !in s.parts[p].rows {
        var q :| q in srcs && q in s.parts && r in s.parts[q].rows;
        assert s.parts[q].rows !! s.parts[p].rows;
      }
    }
  }

  lemma {:induction false} EarlierDeadline(s: State, m: MergeId, now: int, deadline: int)
    requires HoldInv(s) && ContentInv(s) && FilesInv(s) && m in s.merges && s.merges[m].phase.Written?
    requires s.merges[m].phase.dst == Inmemory && IsFlushDeadline(s.parts, s.merges[m].srcs, now, deadline)
    ensures forall r :: r in UnionRows(s.parts, s.merges[m].srcs) && r in s.deadlines ==> deadline <= s.deadlines[r]
  {
    assert WriteInv(s.parts, m, s.merges[m], s.disk, s.dirOwner);
    forall r | r in UnionRows(s.parts, s.merges[m].srcs) && r in s.deadlines ensures deadline <= s.deadlines[r] {
      var p :| p in s.merges[m].srcs && p in s.parts && r in s.parts[p].rows;
      assert p in Listed(s) && p in s.inmemoryParts;
      assert s.parts[p].flushDeadline <= s.deadlines[r];
    }
  }

  /** The rows that queries see stay the same, and the durable ones stay durable. */
  ghost predicate KeepsRows(s: State, s': State) {
    Rows(s') == Rows(s) && UnionRows(s.parts, Files(s)) <= UnionRows(s'.parts, Files(s'))
  }

  lemma {:induction false} SwapNothingKeeps(s: State, m: MergeId)
    requires Inv(s) && m in s.merges && s.merges[m].phase.Written? && UnionRows(s.parts, s.merges[m].srcs) == {}
    ensures Inv(SwappedNothing(s, m))
  {
    UnlistedKeeps(s, m);
    if s.merges[m].phase.dst != Inmemory {
      ResultDirIsOwned(s, m);
      ResultRemoved(WithNames(Unlisted(s, m), RemovedFiles(s, m) > 0), m, s.merges[m].phase.name);
    }
  }

  lemma {:induction false} ResultDirIsOwned(s: State, m: MergeId)
    requires WritesInv(s.parts, s.merges, s.disk, s.dirOwner)
    requires m in s.merges && s.merges[m].phase.Written? && s.merges[m].phase.dst != Inmemory
    ensures var s', name := WithNames(Unlisted(s, m), RemovedFiles(s, m) > 0), s.merges[m].phase.name;
            name in s'.dirOwner && s'.dirOwner[name] == MergeDir(m) && m in s'.merges && !s'.merges[m].phase.HasDst()
  {
    assert WriteInv(s.parts, m, s.merges[m], s.disk, s.dirOwner);
  }

  /** Removes the result of a merge that is over. */
  lemma {:induction false} ResultRemoved(s: State, m: MergeId, name: Name)
    requires Inv(s) && name in s.dirOwner && s.dirOwner[name] == MergeDir(m)
    requires m in s.merges ==> !s.merges[m].phase.HasDst()
    ensures Inv(StartRemove(s, name))
  {
    assert name in s.disk;
    OtherDir(s, name, Partial, Removing);
    RestKept(s, StartRemove(s, name));
  }

  lemma {:induction false} UnlistedKeeps(s: State, m: MergeId)
    requires Inv(s) && m in s.merges && s.merges[m].phase.Written?
    ensures Inv(WithNames(Unlisted(s, m), RemovedFiles(s, m) > 0))
  {
    UnlistedHold(s, m);
    UnlistedMerges(s, m);
    UnlistedContent(s, m);
    UnlistedNames(s, m);
    assert Listed(WithNames(Unlisted(s, m), RemovedFiles(s, m) > 0)) == Listed(Unlisted(s, m));
  }

  lemma {:induction false} NamesKeepRows(s: State, s': State, write: bool)
    requires KeepsRows(s, s')
    ensures KeepsRows(s, WithNames(s', write))
  {
  }

  lemma {:induction false} SwapNothingRows(s: State, m: MergeId)
    requires m in s.merges && s.merges[m].phase.Written? && UnionRows(s.parts, s.merges[m].srcs) == {}
    ensures KeepsRows(s, SwappedNothing(s, m))
  {
    var s', srcs := Unlisted(s, m), s.merges[m].srcs;
    RowsWithout(s.parts, Listed(s), srcs);
    RowsWithout(s.parts, Files(s), srcs);
    assert Listed(s') == Listed(s) - srcs && Files(s') == Files(s) - srcs;
    NamesKeepRows(s, s', RemovedFiles(s, m) > 0);
  }

  lemma {:induction false} SwapMemoryKeeps(s: State, m: MergeId, part: Part, now: int)
    requires Inv(s) && m in s.merges && s.merges[m].phase.Written? && s.merges[m].phase.dst == Inmemory
    requires part.partType == Inmemory && part.rows == UnionRows(s.parts, s.merges[m].srcs)
    requires IsFlushDeadline(s.parts, s.merges[m].srcs, now, part.flushDeadline)
    ensures Inv(SwappedMemory(s, m, part))
  {
    var s' := WithNames(Unlisted(s, m), RemovedFiles(s, m) > 0);
    UnlistedHold(s, m);
    UnlistedMerges(s, m);
    UnlistedContent(s, m);
    UnlistedNames(s, m);
    assert Listed(s') == Listed(Unlisted(s, m));
    NotClosing(s, m);
    AddMemoryPart(s', part);
    UnionIsNew(s, m, part);
    EarlierDeadline(s, m, now, part.flushDeadline);
    AddPartContent(s', part, s'.deadlines);
    SameNames(s, m, part, RemovedFiles(s, m) > 0);
  }

  /** Sources in files are only ever merged into files. */
  lemma {:induction false} SwapMemoryRows(s: State, m: MergeId, part: Part)
    requires m in s.merges && part.partType == Inmemory && part.rows == UnionRows(s.parts, s.merges[m].srcs)
    requires s.nextId !in s.parts && s.merges[m].srcs <= Listed(s) <= s.parts.Keys
    requires s.merges[m].srcs !! Files(s)
    ensures KeepsRows(s, SwappedMemory(s, m, part))
  {
    var s', srcs, p := AddPart(Unlisted(s, m), part), s.merges[m].srcs, s.nextId;
    assert Listed(s') == Listed(s) - srcs + {p} && Listed(s) + srcs == Listed(s);
    RowsAfterSwap(s.parts, part, p, Listed(s), srcs);
    SameFiles(s, m, part);
    NewPartElsewhere(s.parts, part, p, Files(s));
    NamesKeepRows(s, s', RemovedFiles(s, m) > 0);
  }

  lemma {:induction false} SameFiles(s: State, m: MergeId, part: Part)
    requires m in s.merges && part.partType == Inmemory && s.merges[m].srcs !! Files(s)
    ensures Files(AddPart(Unlisted(s, m), part)) == Files(s)
  {
  }

  lemma {:induction false} NewPartElsewhere(parts: map<PartId, Part>, part: Part, p: PartId, ids: set<PartId>)
    requires p !in parts && ids <= parts.Keys
    ensures UnionRows(parts[p := part], ids) == UnionRows(parts, ids)
  {
    assert forall q :: q in ids ==> parts[p := part][q] == parts[q];
  }

  lemma {:induction false} NotClosing(s: State, m: MergeId)
    requires Inv(s) && m in s.merges && s.merges[m].phase.Written? && s.merges[m].phase.dst == Inmemory
    ensures !s.closing
  {
    assert WriteInv(s.parts, m, s.merges[m], s.disk, s.dirOwner);
  }

  /** The directory of a finished merge becomes the directory of the new part. */
  lemma {:induction false} DirHandedOver(s: State, m: MergeId, p: PartId)
    requires HoldInv(s) && FilesInv(s) && m in s.merges && s.merges[m].phase.Written? && s.merges[m].phase.dst != Inmemory
    requires p !in s.parts
    ensures var s' := Unlisted(s, m);
            var name := s.merges[m].phase.name;
            var dirOwner := s.dirOwner[name := PartDir(p)];
            && name in s.disk && s.disk[name] == Complete(UnionRows(s.parts, s.merges[m].srcs))
            && DiskInv(s'.parts, s'.refCount, s'.disk, dirOwner) && NamesInv(s'.disk, dirOwner, s'.mergeIdx)
            && WritesInv(s'.parts, s'.merges, s'.disk, dirOwner)
  {
    var s', name := Unlisted(s, m), s.merges[m].phase.name;
    var dirOwner := s.dirOwner[name := PartDir(p)];
    assert WriteInv(s.parts, m, s.merges[m], s.disk, s.dirOwner);
    forall q | q in s.parts && q in s.refCount && s.parts[q].IsFile() && s.refCount[q] > 0
      ensures HasDir(s.disk, dirOwner, q, s.parts[q])
    {
      assert HasDir(s.disk, s.dirOwner, q, s.parts[q]);
    }
    forall k | k in s'.merges && s'.merges[k].phase.HasDst()
      ensures WriteInv(s.parts, k, s'.merges[k], s.disk, dirOwner)
    {
      assert WriteInv(s.parts, k, s.merges[k], s.disk, s.dirOwner);
    }
  }

  lemma {:induction false} SwapFileFiles(s: State, m: MergeId, part: Part)
    requires HoldInv(s) && FilesInv(s) && m in s.merges && s.merges[m].phase.Written?
    requires s.merges[m].phase.dst == part.partType != Inmemory && part.name == s.merges[m].phase.name
    requires part.rows == UnionRows(s.parts, s.merges[m].srcs) && HoldInv(SwappedFile(s, m, part))
    ensures FilesInv(SwappedFile(s, m, part))
  {
    var s1 := Unlisted(s, m).(dirOwner := s.dirOwner[part.name := PartDir(s.nextId)]);
    assert s.nextId !in s.parts;
    DirHandedOver(s, m, s.nextId);
    AddPartFiles(s1, part);
    var s' := SwappedFile(s, m, part);
    FilesAreOpen(s');
    NamesWritten(s');
  }

  lemma {:induction false} SwapFileKeeps(s: State, m: MergeId, part: Part)
    requires Inv(s) && m in s.merges && s.merges[m].phase.Written?
    requires s.merges[m].phase.dst == part.partType != Inmemory && part.name == s.merges[m].phase.name
    requires part.rows == UnionRows(s.parts, s.merges[m].srcs)
    ensures Inv(SwappedFile(s, m, part))
  {
    var s1, s' := Unlisted(s, m), SwappedFile(s, m, part);
    UnlistedHold(s, m);
    UnlistedMerges(s, m);
    UnlistedContent(s, m);
    DroppingAreParts(s1);
    AddPartHold(s1, part);
    AddPartMerges(s1, part);
    UnionIsNew(s, m, part);
    AddPartContent(s1, part, s.deadlines);
    assert Listed(s') == Listed(AddPart(s1, part));
    SwapFileFiles(s, m, part);
  }

  lemma {:induction false} SwapFileRows(s: State, m: MergeId, part: Part)
    requires m in s.merges && part.partType != Inmemory && part.rows == UnionRows(s.parts, s.merges[m].srcs)
    requires s.nextId !in s.parts && s.merges[m].srcs <= Listed(s) <= s.parts.Keys
    ensures KeepsRows(s, SwappedFile(s, m, part))
  {
    var s', srcs, p := SwappedFile(s, m, part), s.merges[m].srcs, s.nextId;
    assert Listed(s') == Listed(s) - srcs + {p} && Listed(s) + srcs == Listed(s);
    assert Files(s') == Files(s) - srcs + {p};
    RowsAfterSwap(s.parts, part, p, Listed(s), srcs);
    RowsAfterSwap(s.parts, part, p, Files(s), srcs);
    MoreRows(s.parts, Files(s), Files(s) + srcs);
  }

  lemma {:induction false} SwapKeeps(s: State, m: MergeId, size: nat, now: int, deadline: int)
    requires Inv(s) && Enabled(Up(s), Swap(m, size, now, deadline))
    ensures DoSwap(s, m, size, deadline).Up?
    ensures Inv(DoSwap(s, m, size, deadline).s)
  {
    SwapGoesUp(s, m, size, deadline);
    var s' := ResultKeeps(s, m, size, now, deadline);
  }

  ghost function SwapResult(s: State, m: MergeId, size: nat, deadline: int): State
    requires m in s.merges && s.merges[m].phase.Written?
  {
    var dst, name, rows := s.merges[m].phase.dst, s.merges[m].phase.name, UnionRows(s.parts, s.merges[m].srcs);
    if rows == {} then SwappedNothing(s, m)
    else if dst == Inmemory then SwappedMemory(s, m, Part(rows, dst, 0, size, deadline))
    else SwappedFile(s, m, Part(rows, dst, name, size, 0))
  }

  lemma {:induction false} SwapGoesUp(s: State, m: MergeId, size: nat, deadline: int)
    requires HoldInv(s) && MergeInv(s) && m in s.merges && s.merges[m].phase.Written?
    ensures DoSwap(s, m, size, deadline) == Up(SwapResult(s, m, size, deadline))
  {
    NoneRemoved(s, m);
  }

  lemma {:induction false} ResultKeeps(s: State, m: MergeId, size: nat, now: int, deadline: int) returns (s': State)
    requires Inv(s) && m in s.merges && s.merges[m].phase.Written? && IsFlushDeadline(s.parts, s.merges[m].srcs, now, deadline)
    ensures s' == SwapResult(s, m, size, deadline) && Inv(s')
  {
    var dst, name, rows := s.merges[m].phase.dst, s.merges[m].phase.name, UnionRows(s.parts, s.merges[m].srcs);
    if rows == {} {
      SwapNothingKeeps(s, m);
      return SwappedNothing(s, m);
    }
    if dst == Inmemory {
      SwapMemoryKeeps(s, m, Part(rows, dst, 0, size, deadline), now);
      return SwappedMemory(s, m, Part(rows, dst, 0, size, deadline));
    }
    SwapFileKeeps(s, m, Part(rows, dst, name, size, 0));
    return SwappedFile(s, m, Part(rows, dst, name, size, 0));
  }

  lemma {:induction false} SwapRows(s: State, m: MergeId, size: nat, deadline: int)
    requires Inv(s) && m in s.merges && s.merges[m].phase.Written? && DoSwap(s, m, size, deadline).Up?
    ensures KeepsRows(s, DoSwap(s, m, size, deadline).s)
  {
    var dst, name, rows := s.merges[m].phase.dst, s.merges[m].phase.name, UnionRows(s.parts, s.merges[m].srcs);
    ListsOfSwap(s, m);
    if rows == {} {
      SwapNothingRows(s, m);
    } else if dst == Inmemory {
      SwapMemoryRows(s, m, Part(rows, dst, 0, size, deadline));
    } else {
      SwapFileRows(s, m, Part(rows, dst, name, size, 0));
    }
  }

  ghost function Files(s: State): set<PartId> {
    s.smallParts + s.bigParts
  }

  lemma {:induction false} RowsAfterSwap(parts: map<PartId, Part>, part: Part, p: PartId, listed: set<PartId>, srcs: set<PartId>)
    requires p !in parts && listed <= parts.Keys && srcs <= parts.Keys && part.rows == UnionRows(parts, srcs)
    ensures UnionRows(parts[p := part], listed - srcs + {p}) == UnionRows(parts, listed + srcs)
  {
    var parts' := parts[p := part];
    forall r | r in UnionRows(parts', listed - srcs + {p}) ensures r in UnionRows(parts, listed + srcs) {
      var q :| q in listed - srcs + {p} && q in parts' && r in parts'[q].rows;
      if q == p {
        var k :| k in srcs && k in parts && r in parts[k].rows;
      }
    }
    forall r | r in UnionRows(parts, listed + srcs) ensures r in UnionRows(parts', listed - srcs + {p}) {
      var q :| q in listed + srcs && q in parts && r in parts[q].rows;
      assert if q in srcs then p in parts' && r in parts'[p].rows else parts'[q] == parts[q];
    }
  }

  lemma {:induction false} RowsWithout(parts: map<PartId, Part>, listed: set<PartId>, srcs: set<PartId>)
    requires UnionRows(parts, srcs) == {}
    ensures UnionRows(parts, listed - srcs) == UnionRows(parts, listed)
  {
    forall p | p in srcs && p in parts ensures parts[p].rows == {} {
      assert forall r :: r in parts[p].rows ==> r in UnionRows(parts, srcs);
    }
  }

  lemma {:induction false} MoreRows(parts: map<PartId, Part>, a: set<PartId>, b: set<PartId>)
    requires a <= b
    ensures UnionRows(parts, a) <= UnionRows(parts, b)
  {
  }

  lemma {:induction false} ListsOfSwap(s: State, m: MergeId)
    requires Inv(s) && m in s.merges && s.merges[m].phase.Written?
    ensures s.nextId !in s.parts && s.merges[m].srcs <= Listed(s) <= s.parts.Keys && Files(s) <= s.parts.Keys
    ensures s.merges[m].phase.dst == Inmemory ==> s.merges[m].srcs !! Files(s)
  {
    assert WriteInv(s.parts, m, s.merges[m], s.disk, s.dirOwner);
  }

  lemma {:induction false} SameNames(s: State, m: MergeId, part: Part, write: bool)
    requires HoldInv(s) && m in s.merges && part.partType == Inmemory
    ensures WithNames(AddPart(Unlisted(s, m), part), write) == AddPart(WithNames(Unlisted(s, m), write), part)
  {
    var parts, files := s.parts, Unlisted(s, m).smallParts + Unlisted(s, m).bigParts;
    assert s.nextId !in files;
    assert Names(parts[s.nextId := part], files) == Names(parts, files);
    assert files + {} == files;
  }

  // Closing, crashing and opening.

  /** What is on disk between two runs. */
  ghost predicate DownInv(disk: map<Name, Dir>, partsJson: set<Name>, deadlines: map<RowId, int>) {
    && (forall n :: n in partsJson ==> n in disk && disk[n].Complete? && disk[n].rows <= deadlines.Keys)
    && forall n, k :: n in partsJson && k in partsJson && n != k ==> OwnRows(disk, n, k)
  }

  ghost predicate OwnRows(disk: map<Name, Dir>, n: Name, k: Name) {
    n in disk && k in disk && disk[n].Complete? && disk[k].Complete? ==> disk[n].rows !! disk[k].rows
  }

  /** The listed directories hold the rows of the listed file parts. */
  lemma {:induction false} ListedDir(s: State, n: Name) returns (p: PartId)
    requires Inv(s) && n in s.partsJson
    ensures p in s.smallParts + s.bigParts && p in s.parts && s.parts[p].name == n
    ensures n in s.disk && s.disk[n] == Complete(s.parts[p].rows) && s.dirOwner[n] == PartDir(p)
  {
    p := s.dirOwner[n].p;
    FilesAreOpen(s);
    assert HasDir(s.disk, s.dirOwner, p, s.parts[p]);
  }

  lemma {:induction false} GoesDown(s: State, disk: map<Name, Dir>)
    requires Inv(s) && SurvivesCrash(s.disk, disk, s.partsJson)
    ensures DownInv(disk, s.partsJson, s.deadlines)
  {
    forall n | n in s.partsJson ensures n in disk && disk[n].Complete? && disk[n].rows <= s.deadlines.Keys {
      var p := ListedDir(s, n);
    }
    forall n, k | n in s.partsJson && k in s.partsJson && n != k ensures OwnRows(disk, n, k) {
      var p, q := s.dirOwner[n].p, s.dirOwner[k].p;
      var p' := ListedDir(s, n);
      var q' := ListedDir(s, k);
      assert p in Listed(s) && q in Listed(s);
    }
  }

  /** A clean shutdown leaves nothing in memory and deletes nothing that is listed. */
  lemma {:induction false} FinishCloseKeeps(s: State)
    requires Inv(s) && s.closing && s.merges == map[] && s.readers == multiset{}
    ensures DoFinishClose(s) == Down(s.disk, s.partsJson, s.deadlines) && DownInv(s.disk, s.partsJson, s.deadlines)
    ensures s.inmemoryParts == {}
  {
    assert s.owner.Keys == {};
    assert Listed(s) * s.mustDrop == {};
    assert Names(s.parts, {}) == {};
    assert s.disk - {} == s.disk;
    GoesDown(s, s.disk);
  }

  lemma {:induction false} ReopenKeeps(disk: map<Name, Dir>, partsJson: set<Name>, deadlines: map<RowId, int>, mergeIdx: Name, big: set<Name>)
    requires DownInv(disk, partsJson, deadlines) && forall n :: n in partsJson ==> n <= mergeIdx
    ensures DoReopen(disk, partsJson, deadlines, mergeIdx, big).Up?
    ensures Inv(DoReopen(disk, partsJson, deadlines, mergeIdx, big).s)
  {
    var s := Opened(disk, partsJson, deadlines, mergeIdx, big);
    assert Listed(s) == partsJson == s.smallParts + s.bigParts;
    OpenedHold(disk, partsJson, deadlines, mergeIdx, big);
    OpenedFiles(disk, partsJson, deadlines, mergeIdx, big);
    OpenedContent(disk, partsJson, deadlines, mergeIdx, big);
  }

  /** Nothing is claimed, dropped or read yet. */
  lemma {:induction false} OpenedHold(disk: map<Name, Dir>, partsJson: set<Name>, deadlines: map<RowId, int>, mergeIdx: Name, big: set<Name>)
    requires forall n :: n in partsJson ==> n <= mergeIdx
    ensures HoldInv(Opened(disk, partsJson, deadlines, mergeIdx, big)) && MergeInv(Opened(disk, partsJson, deadlines, mergeIdx, big))
  {
    assert Listed(Opened(disk, partsJson, deadlines, mergeIdx, big)) == partsJson;
  }

  lemma {:induction false} OpenedFiles(disk: map<Name, Dir>, partsJson: set<Name>, deadlines: map<RowId, int>, mergeIdx: Name, big: set<Name>)
    requires DownInv(disk, partsJson, deadlines) && forall n :: n in partsJson ==> n <= mergeIdx
    ensures FilesInv(Opened(disk, partsJson, deadlines, mergeIdx, big))
  {
  }

  lemma {:induction false} OpenedContent(disk: map<Name, Dir>, partsJson: set<Name>, deadlines: map<RowId, int>, mergeIdx: Name, big: set<Name>)
    requires DownInv(disk, partsJson, deadlines)
    ensures ContentInv(Opened(disk, partsJson, deadlines, mergeIdx, big))
  {
    var s := Opened(disk, partsJson, deadlines, mergeIdx, big);
    assert Listed(s) == partsJson;
    RowsOnDisk(disk, partsJson, deadlines, s.parts);
  }

  lemma {:induction false} RowsOnDisk(disk: map<Name, Dir>, partsJson: set<Name>, deadlines: map<RowId, int>, parts: map<PartId, Part>)
    requires DownInv(disk, partsJson, deadlines)
    requires parts.Keys == partsJson && forall n :: n in partsJson ==> parts[n].rows == disk[n].rows
    ensures RowsInv(parts, partsJson) && DeadlinesInv(parts, {}, deadlines)
  {
    forall n, k | n in partsJson && k in partsJson && n != k ensures parts[n].rows !! parts[k].rows {
      assert OwnRows(disk, n, k);
    }
  }

  // ---------- Main results ----------

  ghost predicate WorldInv(w: World) {
    match w
    case Up(s) => Inv(s)
    case Down(disk, partsJson, deadlines) => DownInv(disk, partsJson, deadlines)
    case Panicked => false
  }

  /** No step of any interleaving breaks the invariant, so none of the consistency checks fails. */
  lemma {:induction false} StepKeeps(w: World, step: Step)
    requires WorldInv(w) && Enabled(w, step)
    ensures WorldInv(Apply(w, step))
  {
    match w
    case Up(s) => UpStepKeeps(s, step);
    case Down(disk, partsJson, deadlines) =>
      if step.Reopen? {
        ReopenKeeps(disk, partsJson, deadlines, step.mergeIdx, step.big);
      } else {
        CrashAgain(disk, step.disk, partsJson, deadlines);
      }
  }

  lemma {:induction false} CrashAgain(disk: map<Name, Dir>, disk': map<Name, Dir>, partsJson: set<Name>, deadlines: map<RowId, int>)
    requires DownInv(disk, partsJson, deadlines) && SurvivesCrash(disk, disk', partsJson)
    ensures DownInv(disk', partsJson, deadlines)
  {
    forall n, k | n in partsJson && k in partsJson && n != k ensures OwnRows(disk', n, k) {
      assert OwnRows(disk, n, k);
    }
  }

  lemma {:induction false} UpStepKeeps(s: State, step: Step)
    requires Inv(s) && Enabled(Up(s), step)
    ensures WorldInv(Apply(Up(s), step))
  {
    if step.Ingest? || step.AcquirePart? || step.ReleasePart? || step.RemoveDone? {
      UseStepKeeps(s, step);
    } else if step.StartClose? || step.FinishClose? || step.Crash? {
      EndStepKeeps(s, step);
    } else if step.Claim? || step.BeginWrite? || step.FinishWrite? || step.Abort? {
      WriteStepKeeps(s, step);
    } else {
      SwapStepKeeps(s, step);
    }
  }

  lemma {:induction false} UseStepKeeps(s: State, step: Step)
    requires Inv(s) && Enabled(Up(s), step) && (step.Ingest? || step.AcquirePart? || step.ReleasePart? || step.RemoveDone?)
    ensures WorldInv(Apply(Up(s), step))
  {
    match step
    case Ingest(rows, size, deadline) => IngestKeeps(s, rows, size, deadline);
    case AcquirePart(p) => AcquireKeeps(s, p);
    case ReleasePart(p) => ReleasePartKeeps(s, p);
    case RemoveDone(n) => RemoveDoneKeeps(s, n);
  }

  lemma {:induction false} EndStepKeeps(s: State, step: Step)
    requires Inv(s) && Enabled(Up(s), step) && (step.StartClose? || step.FinishClose? || step.Crash?)
    ensures WorldInv(Apply(Up(s), step))
  {
    match step
    case StartClose(groups, claim) => StartCloseKeeps(s, groups, claim);
    case FinishClose => FinishCloseKeeps(s);
    case Crash(disk') => GoesDown(s, disk');
  }

  lemma {:induction false} WriteStepKeeps(s: State, step: Step)
    requires Inv(s) && Enabled(Up(s), step) && (step.Claim? || step.BeginWrite? || step.FinishWrite? || step.Abort?)
    ensures WorldInv(Apply(Up(s), step))
  {
    match step
    case Claim(groups, claim, isFinal) => ClaimKeeps(s, groups, claim, isFinal);
    case BeginWrite(m, dst, _, _, _) => BeginWriteKeeps(s, m, dst);
    case FinishWrite(m) => FinishWriteKeeps(s, m);
    case Abort(m) => AbortKeeps(s, m);
  }

  lemma {:induction false} SwapStepKeeps(s: State, step: Step)
    requires Inv(s) && Enabled(Up(s), step) && (step.Swap? || step.DropSrc? || step.Release?)
    ensures WorldInv(Apply(Up(s), step))
  {
    match step
    case Swap(m, size, now, deadline) => SwapKeeps(s, m, size, now, deadline);
    case DropSrc(m, p) => DropSrcKeeps(s, m, p);
    case Release(m) => ReleaseKeeps(s, m);
  }

  /** The rows a restart would find. */
  ghost function DurableRows(disk: map<Name, Dir>, partsJson: set<Name>): set<RowId> {
    set n, r | n in partsJson && n in disk && disk[n].Complete? && r in disk[n].rows :: r
  }

  ghost function Durable(w: World): set<RowId> {
    match w
    case Up(s) => DurableRows(s.disk, s.partsJson)
    case Down(disk, partsJson, _) => DurableRows(disk, partsJson)
    case Panicked => {}
  }

  /** The rows a query sees. */
  ghost function Rows(s: State): set<RowId> {
    UnionRows(s.parts, Listed(s))
  }

  lemma {:induction false} DurableAreFiles(s: State)
    requires Inv(s)
    ensures Durable(Up(s)) == UnionRows(s.parts, s.smallParts + s.bigParts)
  {
    forall r ensures r in Durable(Up(s)) <==> r in UnionRows(s.parts, s.smallParts + s.bigParts) {
      if r in Durable(Up(s)) {
        DurableIsInFile(s, r);
      }
      if r in UnionRows(s.parts, s.smallParts + s.bigParts) {
        FileRowIsDurable(s, r);
      }
    }
  }

  lemma {:induction false} DurableIsInFile(s: State, r: RowId)
    requires Inv(s) && r in DurableRows(s.disk, s.partsJson)
    ensures r in UnionRows(s.parts, s.smallParts + s.bigParts)
  {
    var n :| n in s.partsJson && n in s.disk && s.disk[n].Complete? && r in s.disk[n].rows;
    var p := ListedDir(s, n);
  }

  lemma {:induction false} FileRowIsDurable(s: State, r: RowId)
    requires Inv(s) && r in UnionRows(s.parts, s.smallParts + s.bigParts)
    ensures r in DurableRows(s.disk, s.partsJson)
  {
    var p :| p in s.smallParts + s.bigParts && p in s.parts && r in s.parts[p].rows;
    FileIsDurable(s, p);
  }

  lemma {:induction false} FileIsDurable(s: State, p: PartId)
    requires HoldInv(s) && FilesInv(s) && p in s.smallParts + s.bigParts && p in s.parts
    ensures s.parts[p].name in s.partsJson && s.parts[p].name in s.disk && s.disk[s.parts[p].name] == Complete(s.parts[p].rows)
  {
    FilesAreOpen(s);
    assert HasDir(s.disk, s.dirOwner, p, s.parts[p]);
  }

  /** Queries keep seeing every row, durable rows stay in files, and only ingestion adds rows. */
  ghost predicate RowsStep(s: State, step: Step, w: World) {
    w.Up? ==>
      && Rows(w.s) == Rows(s) + (if step.Ingest? then step.rows else {})
      && UnionRows(s.parts, Files(s)) <= UnionRows(w.s.parts, Files(w.s))
  }

  ghost predicate SameLists(s: State, s': State) {
    s'.parts == s.parts && s'.inmemoryParts == s.inmemoryParts && s'.smallParts == s.smallParts && s'.bigParts == s.bigParts
  }

  lemma {:induction false} SameListsSameRows(s: State, step: Step, w: World)
    requires !step.Ingest? && (w.Up? ==> SameLists(s, w.s))
    ensures RowsStep(s, step, w)
  {
  }

  lemma {:induction false} DecRefLists(s: State, p: PartId)
    ensures DecRef(s, p).Up? ==> SameLists(s, DecRef(s, p).s)
  {
    if p in s.parts && p in s.refCount && s.refCount[p] > 0 {
      DirRemovedSameLists(s, Decremented(s, p), s.parts[p].name);
    }
  }

  lemma {:induction false} DirRemovedSameLists(s: State, s': State, name: Name)
    requires SameLists(s, s')
    ensures SameLists(s, StartRemove(s', name))
  {
  }

  lemma {:induction false} BeginWriteRows(s: State, step: Step, m: MergeId, dst: PartType)
    requires m in s.merges && !step.Ingest?
    ensures RowsStep(s, step, DoBeginWrite(s, m, dst))
  {
    assert SameLists(s, WithDst(s, m, dst, s.mergeIdx + 1));
    SameListsSameRows(s, step, DoBeginWrite(s, m, dst));
  }

  lemma {:induction false} FinishWriteRows(s: State, step: Step, m: MergeId)
    requires m in s.merges && s.merges[m].phase.Writing? && !step.Ingest?
    ensures RowsStep(s, step, DoFinishWrite(s, m))
  {
    var srcs, dst, name := s.merges[m].srcs, s.merges[m].phase.dst, s.merges[m].phase.name;
    var s1 := SetPhase(s, m, Written(dst, name));
    SameListsSameRows(s, step, Up(s1));
    SameListsSameRows(s, step, Up(s1.(disk := s.disk[name := Complete(UnionRows(s.parts, srcs))])));
  }

  lemma {:induction false} AbortRows(s: State, step: Step, m: MergeId)
    requires m in s.merges && !step.Ingest?
    ensures RowsStep(s, step, Up(DoAbort(s, m)))
  {
    var phase, s1 := s.merges[m].phase, SetPhase(s, m, Finishing({}));
    if phase.Written? && phase.dst != Inmemory {
      SameListsSameRows(s, step, Up(StartRemove(s1, phase.name)));
    } else {
      SameListsSameRows(s, step, Up(s1));
    }
  }

  lemma {:induction false} ReleaseRows(s: State, step: Step, m: MergeId)
    requires m in s.merges && !step.Ingest?
    ensures RowsStep(s, step, DoRelease(s, m))
  {
    SameListsSameRows(s, step, DoRelease(s, m));
  }

  lemma {:induction false} ClaimRows(s: State, step: Step, groups: map<MergeId, set<PartId>>, claim: map<PartId, MergeId>, isFinal: bool)
    requires !step.Ingest?
    ensures RowsStep(s, step, Up(DoClaim(s, groups, claim, isFinal)))
    ensures RowsStep(s, step, Up(DoClaim(s, groups, claim, isFinal).(closing := true)))
  {
    SameListsSameRows(s, step, Up(DoClaim(s, groups, claim, isFinal)));
    SameListsSameRows(s, step, Up(DoClaim(s, groups, claim, isFinal).(closing := true)));
  }

  lemma {:induction false} RefStepRows(s: State, step: Step, p: PartId)
    requires !step.Ingest?
    ensures forall m :: m in s.merges && s.merges[m].phase.Finishing? ==> RowsStep(s, step, DoDropSrc(s, m, p))
    ensures RowsStep(s, step, DoAcquire(s, p))
    ensures RowsStep(s, step, DoReleasePart(s, p))
  {
    forall m | m in s.merges && s.merges[m].phase.Finishing? ensures RowsStep(s, step, DoDropSrc(s, m, p)) {
      DecRefLists(BeforeDrop(s, m, p), p);
      SameListsSameRows(s, step, DoDropSrc(s, m, p));
    }
    SameListsSameRows(s, step, DoAcquire(s, p));
    DecRefLists(s.(readers := s.readers - multiset{p}), p);
    SameListsSameRows(s, step, DoReleasePart(s, p));
  }

  lemma {:induction false} IngestAddsRows(s: State, rows: set<RowId>, size: nat, deadline: int)
    requires Listed(s) <= s.parts.Keys && s.nextId !in s.parts
    ensures RowsStep(s, Ingest(rows, size, deadline), Up(DoIngest(s, rows, size, deadline)))
  {
    var part, p := Part(rows, Inmemory, 0, size, deadline), s.nextId;
    var s' := DoIngest(s, rows, size, deadline);
    assert Listed(s') == Listed(s) + {p} && Files(s') == Files(s);
    NewPartElsewhere(s.parts, part, p, Files(s));
    forall r | r in rows ensures r in UnionRows(s.parts[p := part], {p}) {
      assert p in s.parts[p := part] && r in s.parts[p := part][p].rows;
    }
    NewPartElsewhere(s.parts, part, p, Listed(s));
    assert Rows(s') == UnionRows(s'.parts, Listed(s)) + UnionRows(s'.parts, {p});
  }

  /** Queries keep seeing every row; only ingestion adds some. */
  lemma {:induction false} StepKeepsRows(s: State, step: Step)
    requires Inv(s) && Enabled(Up(s), step)
    ensures RowsStep(s, step, Apply(Up(s), step))
  {
    match step
    case Ingest(rows, size, deadline) => IngestAddsRows(s, rows, size, deadline);
    case Claim(groups, claim, isFinal) => ClaimRows(s, step, groups, claim, isFinal);
    case BeginWrite(m, dst, _, _, _) => BeginWriteRows(s, step, m, dst);
    case FinishWrite(m) => FinishWriteRows(s, step, m);
    case Abort(m) => AbortRows(s, step, m);
    case Swap(m, size, now, deadline) => SwapStepRows(s, m, size, now, deadline);
    case DropSrc(m, p) => RefStepRows(s, step, p);
    case Release(m) => ReleaseRows(s, step, m);
    case AcquirePart(p) => RefStepRows(s, step, p);
    case ReleasePart(p) => RefStepRows(s, step, p);
    case RemoveDone(n) => SameListsSameRows(s, step, Up(s.(disk := s.disk - {n}, dirOwner := s.dirOwner - {n})));
    case StartClose(groups, claim) => ClaimRows(s, step, groups, claim, true);
    case FinishClose =>
    case Crash(disk') =>
  }

  lemma {:induction false} SwapStepRows(s: State, m: MergeId, size: nat, now: int, deadline: int)
    requires Inv(s) && Enabled(Up(s), Swap(m, size, now, deadline))
    ensures RowsStep(s, Swap(m, size, now, deadline), DoSwap(s, m, size, deadline))
  {
    SwapGoesUp(s, m, size, deadline);
    SwapRows(s, m, size, deadline);
  }

  lemma {:induction false} SurvivorsAreDurable(disk: map<Name, Dir>, disk': map<Name, Dir>, partsJson: set<Name>)
    requires SurvivesCrash(disk, disk', partsJson)
    ensures DurableRows(disk, partsJson) <= DurableRows(disk', partsJson)
  {
  }

  /** No step, crash or restart loses a durable row. */
  lemma {:induction false} StepKeepsDurable(w: World, step: Step)
    requires WorldInv(w) && Enabled(w, step)
    ensures Durable(w) <= Durable(Apply(w, step))
  {
    StepKeeps(w, step);
    match w
    case Down(disk, partsJson, deadlines) =>
      if step.Reopen? {
        SurvivorsAreDurable(disk, Apply(w, step).s.disk, partsJson);
      } else {
        SurvivorsAreDurable(disk, step.disk, partsJson);
      }
    case Up(s) => UpStepKeepsDurable(s, step);
  }

  lemma {:induction false} UpStepKeepsDurable(s: State, step: Step)
    requires Inv(s) && Enabled(Up(s), step) && WorldInv(Apply(Up(s), step))
    ensures Durable(Up(s)) <= Durable(Apply(Up(s), step))
  {
    if step.Crash? {
      SurvivorsAreDurable(s.disk, step.disk, s.partsJson);
    } else if step.FinishClose? {
      FinishCloseKeeps(s);
    } else {
      StepKeepsRows(s, step);
      OtherStepsStayUp(s, step);
      FilesStayDurable(s, step, Apply(Up(s), step));
    }
  }

  lemma {:induction false} OtherStepsStayUp(s: State, step: Step)
    requires Enabled(Up(s), step) && !step.Crash? && !step.FinishClose?
    ensures !Apply(Up(s), step).Down?
  {
  }

  lemma {:induction false} FilesStayDurable(s: State, step: Step, w: World)
    requires Inv(s) && w.Up? && Inv(w.s) && RowsStep(s, step, w)
    ensures Durable(Up(s)) <= Durable(w)
  {
    DurableAreFiles(s);
    DurableAreFiles(w.s);
  }

  /** A clean shutdown makes every row durable, and a start shows exactly the durable rows. */
  lemma {:induction false} CleanShutdown(s: State)
    requires Inv(s) && Enabled(Up(s), FinishClose)
    ensures Durable(Apply(Up(s), FinishClose)) == Rows(s)
  {
    FinishCloseKeeps(s);
    DurableAreFiles(s);
    assert Listed(s) == Files(s);
  }

  lemma {:induction false} StartShowsDurable(w: World, step: Step)
    requires WorldInv(w) && w.Down? && Enabled(w, step) && step.Reopen?
    ensures Apply(w, step).Up? && Rows(Apply(w, step).s) == Durable(w)
  {
    ReopenKeeps(w.disk, w.partsJson, w.deadlines, step.mergeIdx, step.big);
    OpenedRows(w.disk, w.partsJson, w.deadlines, step.mergeIdx, step.big);
  }

  lemma {:induction false} OpenedRows(disk: map<Name, Dir>, partsJson: set<Name>, deadlines: map<RowId, int>, mergeIdx: Name, big: set<Name>)
    requires DownInv(disk, partsJson, deadlines)
    ensures Rows(Opened(disk, partsJson, deadlines, mergeIdx, big)) == DurableRows(disk, partsJson)
  {
    var s := Opened(disk, partsJson, deadlines, mergeIdx, big);
    assert Listed(s) == partsJson;
    forall r
      ensures r in Rows(s) <==> r in DurableRows(disk, partsJson)
    {
    }
  }

  /** A row is in at most one listed part. */
  lemma {:induction false} RowIsOnce(s: State, p: PartId, q: PartId, r: RowId)
    requires Inv(s) && p in Listed(s) && q in Listed(s) && p in s.parts && q in s.parts
    requires r in s.parts[p].rows && r in s.parts[q].rows
    ensures p == q
  {
  }

  /** Exclusive claims, references and files at any time between two steps. */
  lemma {:induction false} ListedPartIsSafe(s: State, p: PartId)
    requires Inv(s) && p in Listed(s)
    ensures p in s.parts && p in s.refCount && s.refCount[p] == 1 + s.readers[p] && p !in s.mustDrop
    ensures p in s.isInMerge <==> exists m :: m in s.merges && p in s.merges[m].srcs
    ensures forall m, k :: m in s.merges && k in s.merges && p in s.merges[m].srcs && p in s.merges[k].srcs ==> m == k
    ensures s.parts[p].IsFile() ==>
              && s.parts[p].name in s.partsJson
              && s.parts[p].name in s.disk && s.disk[s.parts[p].name] == Complete(s.parts[p].rows)
  {
    if p in s.isInMerge {
      assert s.owner[p] in s.merges;
    }
    if s.parts[p].IsFile() {
      assert HasDir(s.disk, s.dirOwner, p, s.parts[p]);
    }
  }

  /** A query can read a part that it holds, even after the part was merged away. */
  lemma {:induction false} HeldPartIsReadable(s: State, p: PartId)
    requires Inv(s) && p in s.readers
    ensures Readable(s, {p})
  {
    if s.parts[p].IsFile() {
      assert HasDir(s.disk, s.dirOwner, p, s.parts[p]);
    }
  }

  /** A row that has only reached memory is flushed no later than promised at its ingestion. */
  lemma {:induction false} DeadlineIsKept(s: State, p: PartId, r: RowId)
    requires Inv(s) && p in s.inmemoryParts && r in s.parts[p].rows
    ensures r in s.deadlines && s.parts[p].flushDeadline <= s.deadlines[r]
  {
  }

  ghost predicate IsRun(worlds: seq<World>, steps: seq<Step>) {
    && |worlds| == |steps| + 1
    && worlds[0] == Down(map[], {}, map[])
    && forall i :: 0 <= i < |steps| ==> Enabled(worlds[i], steps[i]) && worlds[i + 1] == Apply(worlds[i], steps[i])
  }

  lemma {:induction false} RunIsSafe(worlds: seq<World>, steps: seq<Step>, i: nat)
    requires IsRun(worlds, steps) && i < |worlds|
    ensures WorldInv(worlds[i])
  {
    if i > 0 {
      RunIsSafe(worlds, steps, i - 1);
      StepKeeps(worlds[i - 1], steps[i - 1]);
    }
  }

  /** Over whole runs with crashes at any point: once durable, always durable. */
  lemma {:induction false} OnceDurable(worlds: seq<World>, steps: seq<Step>, i: nat, j: nat)
    requires IsRun(worlds, steps) && i <= j < |worlds|
    ensures Durable(worlds[i]) <= Durable(worlds[j]) && !worlds[j].Panicked?
  {
    RunIsSafe(worlds, steps, j);
    if i < j {
      OnceDurable(worlds, steps, i, j - 1);
      RunIsSafe(worlds, steps, j - 1);
      StepKeepsDurable(worlds[j - 1], steps[j - 1]);
    }
  }

  /** The part p is the only listed one with the row. */
  ghost predicate IsOnlyIn(s: State, r: RowId, p: PartId) {
    && p in Listed(s) && p in s.parts && r in s.parts[p].rows
    && forall q :: q in Listed(s) && q in s.parts && r in s.parts[q].rows ==> q == p
  }

  lemma {:induction false} RowHasOnePart(s: State, r: RowId) returns (p: PartId)
    requires Inv(s) && r in Rows(s)
    ensures IsOnlyIn(s, r, p)
  {
    p :| p in Listed(s) && p in s.parts && r in s.parts[p].rows;
    forall q | q in Listed(s) && q in s.parts && r in s.parts[q].rows
      ensures q == p
    {
      RowIsOnce(s, p, q, r);
    }
  }

  /** Whatever happens after a row has become durable, a running storage serves it from exactly one listed part, which is a file. */
  lemma {:induction false} DurableRowIsServedOnce(worlds: seq<World>, steps: seq<Step>, i: nat, j: nat, r: RowId) returns (p: PartId)
    requires IsRun(worlds, steps) && i <= j < |worlds| && r in Durable(worlds[i]) && worlds[j].Up?
    ensures IsOnlyIn(worlds[j].s, r, p) && p in Files(worlds[j].s)
  {
    OnceDurable(worlds, steps, i, j);
    RunIsSafe(worlds, steps, j);
    var s := worlds[j].s;
    DurableAreFiles(s);
    assert r in UnionRows(s.parts, Files(s));
    p := RowHasOnePart(s, r);
    var q :| q in Files(s) && q in s.parts && r in s.parts[q].rows;
  }

  /** While the storage is up, an ingested row is served from exactly one listed part, durable or not. */
  lemma {:induction false} IngestedRowIsServedOnce(worlds: seq<World>, steps: seq<Step>, i: nat, j: nat, r: RowId) returns (p: PartId)
    requires IsRun(worlds, steps) && i <= j < |worlds| && worlds[i].Up? && r in Rows(worlds[i].s)
    requires forall k :: i <= k <= j ==> worlds[k].Up?
    ensures IsOnlyIn(worlds[j].s, r, p)
  {
    StaysUp(worlds, steps, i, j);
    RunIsSafe(worlds, steps, j);
    p := RowHasOnePart(worlds[j].s, r);
  }

  lemma {:induction false} StaysUp(worlds: seq<World>, steps: seq<Step>, i: nat, j: nat)
    requires IsRun(worlds, steps) && i <= j < |worlds|
    requires forall k :: i <= k <= j ==> worlds[k].Up?
    ensures Rows(worlds[i].s) <= Rows(worlds[j].s)
    decreases j
  {
    if i < j {
      StaysUp(worlds, steps, i, j - 1);
      RunIsSafe(worlds, steps, j - 1);
      StepKeepsRows(worlds[j - 1].s, steps[j - 1]);
    }
  }
}
