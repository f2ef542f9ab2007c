/** The names of the columns of a part, their ids, and the shards their data is in. */
module ColumnNames {
  import opened StringsBlock
  import opened PartHeaders

  // ---------- Giving ids to names ----------

  /** Names get ids in the order in which they are seen first. */
  datatype Generator = Generator(columnNameIDs: map<Bytes, nat>, columnNames: seq<Bytes>)

  const NO_NAMES := Generator(map[], [])

  ghost predicate ValidGenerator(g: Generator) {
    (forall name :: name in g.columnNameIDs <==> name in g.columnNames) &&
    forall id :: 0 <= id < |g.columnNames| ==> g.columnNameIDs[g.columnNames[id]] == id
  }

  function GetColumnNameID(g: Generator, name: Bytes): (r: (Generator, nat)) {
    if name in g.columnNameIDs then (g, g.columnNameIDs[name])
    else (Generator(g.columnNameIDs[name := |g.columnNames|], g.columnNames + [name]), |g.columnNames|)
  }

  /** A name keeps its id for ever, and no two names share one. */
  lemma {:induction false} IDNamesColumn(g: Generator, name: Bytes)
    requires ValidGenerator(g)
    ensures var (g', id) := GetColumnNameID(g, name);
            ValidGenerator(g') && g.columnNames <= g'.columnNames && id < |g'.columnNames| && g'.columnNames[id] == name &&
            GetColumnNameID(g', name) == (g', id)
  {
    var (g', id) := GetColumnNameID(g, name);
    if name in g.columnNameIDs {
      var i :| 0 <= i < |g.columnNames| && g.columnNames[i] == name;
      assert g.columnNameIDs[g.columnNames[i]] == i;
    } else {
      forall i | 0 <= i < |g'.columnNames|
        ensures g'.columnNameIDs[g'.columnNames[i]] == i
      {
        if i < |g.columnNames| {
          assert g.columnNames[i] in g.columnNames;
        }
      }
    }
  }

  // ---------- The file with the names ----------

  function MarshalColumnNames(z: Compression, names: seq<Bytes>): Bytes {
    z.compress(MarshalVarUint64(|names|) + MarshalBytesList(names), 1)
  }

  predicate AllDistinct<T(==)>(a: seq<T>) {
    forall i, j :: 0 <= i < j < |a| ==> a[i] != a[j]
  }

  /** The names in a file; a name that comes twice is an error. */
  function ReadColumnNames(z: Compression, src: Bytes): Result<seq<Bytes>> {
    var data :- z.decompress(src);
    var (n, src1) :- ReadVar(data);
    var (names, tail) :- ReadBytesList(src1, n);
    if |tail| > 0 || !AllDistinct(names) then Err else Ok(names)
  }

  method UnmarshalColumnNames(z: Compression, src: Bytes) returns (ok: bool, columnNames: seq<Bytes>, columnNameIDs: map<Bytes, nat>)
    ensures ok <==> ReadColumnNames(z, src).Ok?
    ensures ok ==> ReadColumnNames(z, src) == Ok(columnNames) && ValidGenerator(Generator(columnNameIDs, columnNames))
  {
    columnNames, columnNameIDs := [], map[];
    var data := z.decompress(src);
    if data.Err? {
      return false, [], map[];
    }
    var count := ReadVar(data.value);
    if count.Err? {
      return false, [], map[];
    }
    var (n, left) := count.value;
    ghost var all := ReadBytesList(left, n);
    PrependedNothing(all);
    for id := 0 to n
      invariant |columnNames| == id && NamesRead(all, columnNames, columnNameIDs, left, n)
    {
      NextName(all, columnNames, columnNameIDs, left, n);
      var next := ReadBytes(left);
      if next.Err? {
        return false, [], map[];
      }
      var (name, rest) := next.value;
      if name in columnNameIDs {
        return false, [], map[];
      }
      columnNameIDs := columnNameIDs[name := id];
      columnNames := columnNames + [name];
      left := rest;
    }
    if |left| > 0 {
      return false, [], map[];
    }
    assert columnNames + [] == columnNames;
    return true, columnNames, columnNameIDs;
  }

  function Prepended<T>(xs: seq<T>, r: Result<(seq<T>, Bytes)>): Result<(seq<T>, Bytes)> {
    match r
    case Err => Err
    case Ok((rest, tail)) => Ok((xs + rest, tail))
  }

  lemma {:induction false} PrependedTwice<T>(xs: seq<T>, x: T, r: Result<(seq<T>, Bytes)>)
    ensures Prepended(xs, Prepended([x], r)) == Prepended(xs + [x], r)
  {
    if r.Ok? {
      assert xs + ([x] + r.value.0) == xs + [x] + r.value.0;
    }
  }

  /** The names read so far, all different, and what is left to be read. */
  ghost predicate NamesRead(all: Result<(seq<Bytes>, Bytes)>, names: seq<Bytes>, ids: map<Bytes, nat>, left: Bytes, n: nat) {
    |names| <= n && AllDistinct(names) && ValidGenerator(Generator(ids, names)) &&
    all == Prepended(names, ReadBytesList(left, n - |names|))
  }

  lemma {:induction false} NextName(all: Result<(seq<Bytes>, Bytes)>, names: seq<Bytes>, ids: map<Bytes, nat>, left: Bytes, n: nat)
    requires NamesRead(all, names, ids, left, n) && |names| < n
    ensures match ReadBytes(left)
            case Err => all.Err?
            case Ok((name, rest)) =>
              if name in ids then all.Err? || !AllDistinct(all.value.0)
              else NamesRead(all, names + [name], ids[name := |names|], rest, n)
  {
    if ReadBytes(left).Ok? {
      var (name, rest) := ReadBytes(left).value;
      var others := ReadBytesList(rest, n - |names| - 1);
      PrependedTwice(names, name, others);
      if name in ids {
        if others.Ok? {
          NotDistinct(names, name, others);
        }
      } else {
        IDNamesColumn(Generator(ids, names), name);
      }
    }
  }

  lemma {:induction false} PrependedNothing<T>(r: Result<(seq<T>, Bytes)>)
    ensures Prepended([], r) == r
  {
    if r.Ok? {
      assert [] + r.value.0 == r.value.0;
    }
  }

  lemma {:induction false} NotDistinct(names: seq<Bytes>, name: Bytes, r: Result<(seq<Bytes>, Bytes)>)
    requires name in names && r.Ok?
    ensures !AllDistinct(Prepended(names + [name], r).value.0)
  {
    var i :| 0 <= i < |names| && names[i] == name;
    var all := Prepended(names + [name], r).value.0;
    assert all[i] == all[|names|];
  }

  lemma {:induction false} NamesAreDistinct(g: Generator)
    requires ValidGenerator(g)
    ensures AllDistinct(g.columnNames)
  {
    var names := g.columnNames;
    forall i, j | 0 <= i < j < |names|
      ensures names[i] != names[j]
    {
      assert g.columnNameIDs[names[i]] == i && g.columnNameIDs[names[j]] == j;
    }
  }

  /** What the generator has given ids to is what a reader of the file finds. */
  lemma {:induction false} ColumnNamesRoundTrip(z: Compression, g: Generator)
    requires Invertible(z) && ValidGenerator(g)
    ensures ReadColumnNames(z, MarshalColumnNames(z, g.columnNames)) == Ok(g.columnNames)
  {
    var names := g.columnNames;
    VarRoundTrip(|names|, MarshalBytesList(names));
    BytesListRoundTrip(names, []);
    assert MarshalBytesList(names) + [] == MarshalBytesList(names);
    NamesAreDistinct(g);
  }

  // ---------- The file with the shards of the columns ----------

  function MarshalIdxs(ids: seq<nat>, columnIdxs: map<nat, nat>): Bytes
    requires forall i :: 0 <= i < |ids| ==> ids[i] in columnIdxs
  {
    if ids == [] then []
    else MarshalVarUint64(ids[0]) + (MarshalVarUint64(columnIdxs[ids[0]]) + MarshalIdxs(ids[1..], columnIdxs))
  }

  /** The entries of the map come in some order. */
  method MarshalColumnIdxs(columnIdxs: map<nat, nat>) returns (data: Bytes, ghost ids: seq<nat>)
    ensures |ids| == |columnIdxs| && forall id :: id in ids <==> id in columnIdxs
    ensures data == MarshalVarUint64(|ids|) + MarshalIdxs(ids, columnIdxs)
  {
    var head := MarshalVarUint64(|columnIdxs|);
    data := head;
    ids := [];
    var rest := columnIdxs.Keys;
    while rest != {}
      invariant rest <= columnIdxs.Keys && |ids| + |rest| == |columnIdxs|
      invariant forall id :: id in ids <==> id in columnIdxs && id !in rest
      invariant data == head + MarshalIdxs(ids, columnIdxs)
    {
      var id :| id in rest;
      rest := rest - {id};
      var entry := MarshalVarUint64(id) + MarshalVarUint64(columnIdxs[id]);
      LastIdx(ids, id, columnIdxs);
      Assoc(head, MarshalIdxs(ids, columnIdxs), entry);
      data := data + entry;
      ids := ids + [id];
    }
  }

  lemma {:induction false} LastIdx(ids: seq<nat>, id: nat, columnIdxs: map<nat, nat>)
    requires id in columnIdxs && forall i :: 0 <= i < |ids| ==> ids[i] in columnIdxs
    ensures MarshalIdxs(ids + [id], columnIdxs) == MarshalIdxs(ids, columnIdxs) + (MarshalVarUint64(id) + MarshalVarUint64(columnIdxs[id]))
  {
    var entry := MarshalVarUint64(id) + MarshalVarUint64(columnIdxs[id]);
    if ids == [] {
      assert MarshalIdxs([id][1..], columnIdxs) == [];
      assert MarshalIdxs([id], columnIdxs) == entry;
    } else {
      LastIdx(ids[1..], id, columnIdxs);
      assert (ids + [id])[1..] == ids[1..] + [id];
      var a, b, c := MarshalVarUint64(ids[0]), MarshalVarUint64(columnIdxs[ids[0]]), MarshalIdxs(ids[1..], columnIdxs);
      Assoc(b, c, entry);
      Assoc(a, b + c, entry);
    }
  }

  function ReadIdxs(src: Bytes, n: nat, columnNames: seq<Bytes>, shardsCount: nat, shardIdxs: map<Bytes, nat>): Result<map<Bytes, nat>>
    decreases n
  {
    if n == 0 then (if |src| > 0 then Err else Ok(shardIdxs))
    else
      match ReadIdx(src, columnNames, shardsCount)
      case Err => Err
      case Ok(((id, shardIdx), tail)) => ReadIdxs(tail, n - 1, columnNames, shardsCount, shardIdxs[columnNames[id] := shardIdx])
  }

  function ReadColumnIdxs(src: Bytes, columnNames: seq<Bytes>, shardsCount: nat): Result<map<Bytes, nat>> {
    var (n, src1) :- ReadVar(src);
    ReadIdxs(src1, n, columnNames, shardsCount, map[])
  }

  method UnmarshalColumnIdxs(data: Bytes, columnNames: seq<Bytes>, shardsCount: nat) returns (ok: bool, shardIdxs: map<Bytes, nat>)
    ensures ok <==> ReadColumnIdxs(data, columnNames, shardsCount).Ok?
    ensures ok ==> ReadColumnIdxs(data, columnNames, shardsCount) == Ok(shardIdxs)
    ensures ok ==> forall name :: name in shardIdxs ==> name in columnNames && shardIdxs[name] < shardsCount
  {
    var count := ReadVar(data);
    if count.Err? {
      return false, map[];
    }
    ok, shardIdxs := UnmarshalIdxs(count.value.1, count.value.0, columnNames, shardsCount);
    ReadIdxsExist(count.value.1, count.value.0, columnNames, shardsCount, map[]);
  }

  /** Only columns of the part have shards, and only shards that are there. */
  lemma {:induction false} ReadIdxsExist(src: Bytes, n: nat, columnNames: seq<Bytes>, shardsCount: nat, shardIdxs: map<Bytes, nat>)
    requires forall name :: name in shardIdxs ==> name in columnNames && shardIdxs[name] < shardsCount
    ensures var r := ReadIdxs(src, n, columnNames, shardsCount, shardIdxs);
            r.Ok? ==> forall name :: name in r.value ==> name in columnNames && r.value[name] < shardsCount
    decreases n
  {
    if n > 0 && ReadIdx(src, columnNames, shardsCount).Ok? {
      var ((id, shardIdx), tail) := ReadIdx(src, columnNames, shardsCount).value;
      ReadIdxsExist(tail, n - 1, columnNames, shardsCount, shardIdxs[columnNames[id] := shardIdx]);
    }
  }

  method UnmarshalIdxs(data: Bytes, n: nat, columnNames: seq<Bytes>, shardsCount: nat) returns (ok: bool, shardIdxs: map<Bytes, nat>)
    ensures ok <==> ReadIdxs(data, n, columnNames, shardsCount, map[]).Ok?
    ensures ok ==> ReadIdxs(data, n, columnNames, shardsCount, map[]) == Ok(shardIdxs)
  {
    shardIdxs := map[];
    var src := data;
    for i := 0 to n
      invariant ReadIdxs(data, n, columnNames, shardsCount, map[]) == ReadIdxs(src, n - i, columnNames, shardsCount, shardIdxs)
    {
      NextIdxIsRead(src, n - i, columnNames, shardsCount, shardIdxs);
      var next := ReadIdx(src, columnNames, shardsCount);
      if next.Err? {
        return false, map[];
      }
      var ((columnID, shardIdx), tail) := next.value;
      shardIdxs := shardIdxs[columnNames[columnID] := shardIdx];
      src := tail;
    }
    ok := |src| == 0;
  }

  lemma {:induction false} NextIdxIsRead(src: Bytes, n: nat, columnNames: seq<Bytes>, shardsCount: nat, shardIdxs: map<Bytes, nat>)
    requires n > 0
    ensures ReadIdxs(src, n, columnNames, shardsCount, shardIdxs) ==
            match ReadIdx(src, columnNames, shardsCount) {
              case Err => Err
              case Ok(((id, shardIdx), tail)) => ReadIdxs(tail, n - 1, columnNames, shardsCount, shardIdxs[columnNames[id] := shardIdx])
            }
  {
  }

  /** One entry read, or an error. */
  function ReadIdx(src: Bytes, columnNames: seq<Bytes>, shardsCount: nat): (r: Result<((nat, nat), Bytes)>)
    ensures r.Ok? ==> r.value.0.0 < |columnNames|
  {
    var (columnID, src1) :- ReadVar(src);
    var (shardIdx, tail) :- ReadVar(src1);
    if shardIdx >= shardsCount || columnID >= |columnNames| then Err else Ok(((columnID, shardIdx), tail))
  }

  /** r maps the names of the given ids to their shards, and nothing else. */
  ghost predicate ShardsByName(r: map<Bytes, nat>, ids: set<nat>, columnNames: seq<Bytes>, columnIdxs: map<nat, nat>) {
    (forall id :: id in ids ==> id < |columnNames| && id in columnIdxs && columnNames[id] in r && r[columnNames[id]] == columnIdxs[id]) &&
    r.Keys == NamesOf(ids, columnNames)
  }

  ghost function NamesOf(ids: set<nat>, columnNames: seq<Bytes>): set<Bytes> {
    set id | id in ids && id < |columnNames| :: columnNames[id]
  }

  lemma {:induction false} AddShard(r: map<Bytes, nat>, ids: set<nat>, columnNames: seq<Bytes>, columnIdxs: map<nat, nat>, id: nat)
    requires ShardsByName(r, ids, columnNames, columnIdxs) && AllDistinct(columnNames) && id < |columnNames| && id in columnIdxs
    ensures ShardsByName(r[columnNames[id] := columnIdxs[id]], ids + {id}, columnNames, columnIdxs)
  {
    assert NamesOf(ids + {id}, columnNames) == NamesOf(ids, columnNames) + {columnNames[id]};
  }

  ghost function ToSet(ids: seq<nat>): set<nat> {
    if ids == [] then {} else {ids[0]} + ToSet(ids[1..])
  }

  lemma {:induction false} ToSetHasAll(ids: seq<nat>)
    ensures forall id :: id in ToSet(ids) <==> id in ids
  {
    if ids != [] {
      ToSetHasAll(ids[1..]);
      assert ids == [ids[0]] + ids[1..];
    }
  }

  lemma {:induction false} IdxRead(id: nat, shardIdx: nat, tail: Bytes, columnNames: seq<Bytes>, shardsCount: nat)
    requires id < |columnNames| && shardIdx < shardsCount
    ensures ReadIdx(MarshalVarUint64(id) + (MarshalVarUint64(shardIdx) + tail), columnNames, shardsCount) == Ok(((id, shardIdx), tail))
  {
    VarRoundTrip(id, MarshalVarUint64(shardIdx) + tail);
    VarRoundTrip(shardIdx, tail);
  }

  lemma {:induction false} IdxsRead(ids: seq<nat>, done: set<nat>, columnIdxs: map<nat, nat>, columnNames: seq<Bytes>, shardsCount: nat, r: map<Bytes, nat>)
    requires forall i :: 0 <= i < |ids| ==> ids[i] in columnIdxs && ids[i] < |columnNames| && columnIdxs[ids[i]] < shardsCount
    requires AllDistinct(columnNames) && ShardsByName(r, done, columnNames, columnIdxs)
    ensures var all := ReadIdxs(MarshalIdxs(ids, columnIdxs), |ids|, columnNames, shardsCount, r);
            all.Ok? && ShardsByName(all.value, done + ToSet(ids), columnNames, columnIdxs)
  {
    if ids == [] {
      assert done + ToSet(ids) == done;
    } else {
      var id, rest := ids[0], MarshalIdxs(ids[1..], columnIdxs);
      IdxRead(id, columnIdxs[id], rest, columnNames, shardsCount);
      AddShard(r, done, columnNames, columnIdxs, id);
      var next := r[columnNames[id] := columnIdxs[id]];
      IdxsRead(ids[1..], done + {id}, columnIdxs, columnNames, shardsCount, next);
      assert ReadIdxs(MarshalIdxs(ids, columnIdxs), |ids|, columnNames, shardsCount, r) ==
             ReadIdxs(rest, |ids| - 1, columnNames, shardsCount, next);
      assert done + {id} + ToSet(ids[1..]) == done + ToSet(ids);
    }
  }

  /** A reader finds every column in the shard that its data went to. */
  lemma {:induction false} ColumnIdxsRoundTrip(data: Bytes, ids: seq<nat>, columnIdxs: map<nat, nat>, columnNames: seq<Bytes>, shardsCount: nat)
    requires forall id :: id in ids <==> id in columnIdxs
    requires data == MarshalVarUint64(|ids|) + MarshalIdxs(ids, columnIdxs)
    requires AllDistinct(columnNames) && forall id :: id in columnIdxs ==> id < |columnNames| && columnIdxs[id] < shardsCount
    ensures var r := ReadColumnIdxs(data, columnNames, shardsCount);
            r.Ok? && ShardsByName(r.value, columnIdxs.Keys, columnNames, columnIdxs)
  {
    VarRoundTrip(|ids|, MarshalIdxs(ids, columnIdxs));
    IdxsRead(ids, {}, columnIdxs, columnNames, shardsCount, map[]);
    ToSetHasAll(ids);
    assert {} + ToSet(ids) == columnIdxs.Keys;
  }
}
