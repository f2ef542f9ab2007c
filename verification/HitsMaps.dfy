/** Hit counters by key that switch to shards when they become many. */
module HitsMaps {
  import opened Maps
  import Phrases

  const UINT64_SIZE: nat := 0x1_0000_0000_0000_0000
  const HITS_MAP_ADAPTIVE_MAX_LEN: nat := 4096

  type Uint64 = n: nat | n < 0x1_0000_0000_0000_0000

  /** Unsigned numbers, the 64 bits of negative numbers, and other strings. */
  datatype Key = Unsigned(n: Uint64) | Negative(bits: Uint64) | Str(s: string)

  /** The hash functions for numbers and for strings. */
  datatype Hashes = Hashes(ofUint64: Uint64 -> Uint64, ofString: string -> Uint64)

  function Hash(hashes: Hashes, k: Key): Uint64 {
    match k
    case Unsigned(n) => hashes.ofUint64(n)
    case Negative(bits) => hashes.ofUint64(bits)
    case Str(s) => hashes.ofString(s)
  }

  function Decimal(n: nat): string {
    (if n < 10 then "" else Decimal(n / 10)) + ["0123456789"[n % 10]]
  }

  function Text(k: Key): string {
    match k
    case Unsigned(n) => Decimal(n)
    case Negative(bits) => "-" + Decimal(UINT64_SIZE - bits)
    case Str(s) => s
  }

  // ---------- Decimal texts ----------

  predicate IsDigit(c: char) {
    '0' <= c <= '9'
  }

  ghost predicate AreDigits(text: string) {
    forall i :: 0 <= i < |text| ==> IsDigit(text[i])
  }

  /** The number that digits stand for, read from the left. */
  ghost function ReadDigits(text: string): nat
    requires AreDigits(text)
  {
    if text == "" then 0 else 10 * ReadDigits(text[..|text| - 1]) + (text[|text| - 1] as int - '0' as int)
  }

  /** The usual decimal text of a number: digits without leading zeros. */
  ghost predicate IsDecimal(text: string, n: nat) {
    text != "" && AreDigits(text) && ReadDigits(text) == n && (text[0] == '0' ==> text == "0")
  }

  lemma {:induction false} DecimalIsUsual(n: nat)
    ensures IsDecimal(Decimal(n), n)
  {
    if n < 10 {
      OneDigit(n);
    } else {
      DecimalIsUsual(n / 10);
      OneMoreDigit(Decimal(n / 10), n / 10, n % 10);
    }
  }

  lemma {:induction false} DigitIs(d: nat)
    requires d < 10
    ensures IsDigit("0123456789"[d]) && "0123456789"[d] as int - '0' as int == d
  {
  }

  lemma {:induction false} OneDigit(d: nat)
    requires d < 10
    ensures Decimal(d) == ["0123456789"[d]] && IsDecimal(Decimal(d), d)
  {
    DigitIs(d);
    assert Decimal(d)[..0] == "" && ReadDigits("") == 0;
  }

  lemma {:induction false} OneMoreDigit(text: string, n: nat, d: nat)
    requires IsDecimal(text, n) && n > 0 && d < 10
    ensures IsDecimal(text + ["0123456789"[d]], 10 * n + d)
  {
    DigitIs(d);
    assert (text + ["0123456789"[d]])[..|text|] == text;
    assert ReadDigits("0") == 10 * ReadDigits("0"[..0]) + 0;
  }

  /** What the filter is looked for in: the decimal text of a number, with a sign if it is negative, and other
      strings as they are. */
  lemma {:induction false} TextOfKey(k: Key)
    ensures k.Unsigned? ==> IsDecimal(Text(k), k.n)
    ensures k.Negative? ==> Text(k) != "" && Text(k)[0] == '-' && IsDecimal(Text(k)[1..], 0x1_0000_0000_0000_0000 - k.bits)
    ensures k.Str? ==> Text(k) == k.s
  {
    match k
    case Unsigned(n) => DecimalIsUsual(n);
    case Negative(bits) =>
      DecimalIsUsual(UINT64_SIZE - bits);
      assert Text(k)[1..] == Decimal(UINT64_SIZE - bits);
    case Str(_) =>
  }

  ghost predicate Passes(filter: string, k: Key) {
    filter == "" || Phrases.SubstringMatches(Text(k), filter)
  }

  function Add(a: Uint64, b: Uint64): Uint64 {
    (a + b) % UINT64_SIZE
  }

  lemma {:induction false} AddAssoc(a: Uint64, b: Uint64, c: Uint64)
    ensures Add(Add(a, b), c) == Add(a, Add(b, c))
  {
    AddRest(a + b, c);
    AddRest(b + c, a);
  }

  lemma {:induction false} AddRest(a: nat, b: nat)
    ensures (a % UINT64_SIZE + b) % UINT64_SIZE == (a + b) % UINT64_SIZE
  {
    var q := a / UINT64_SIZE;
    assert a + b == a % UINT64_SIZE + b + q * UINT64_SIZE;
    AddMultiple(a % UINT64_SIZE + b, q);
  }

  lemma {:induction false} AddMultiple(x: nat, q: nat)
    ensures (x + q * UINT64_SIZE) % UINT64_SIZE == x % UINT64_SIZE
  {
    if q > 0 {
      AddMultiple(x, q - 1);
    }
  }

  // ---------- What is counted ----------

  type Counts = map<Key, Uint64>

  datatype Update = Update(key: Key, hits: Uint64)

  ghost function Counted(c: Counts, filter: string, u: Update): Counts {
    if !Passes(filter, u.key) then c
    else c[u.key := if u.key in c then Add(c[u.key], u.hits) else u.hits]
  }

  ghost function CountAll(updates: seq<Update>, filter: string): Counts {
    if updates == [] then map[] else Counted(CountAll(updates[..|updates| - 1], filter), filter, updates[|updates| - 1])
  }

  ghost function Sum(a: Counts, b: Counts): (c: Counts)
    ensures c.Keys == a.Keys + b.Keys
    ensures forall k :: k in c ==> c[k] == if k in a && k in b then Add(a[k], b[k]) else if k in a then a[k] else b[k]
  {
    a + b + Tabulate(a.Keys * b.Keys, k => AddOf(a, b, k))
  }

  ghost function AddOf(a: Counts, b: Counts, k: Key): Uint64 {
    if k in a && k in b then Add(a[k], b[k]) else 0
  }

  ghost function SumAll(cs: seq<Counts>): Counts {
    if cs == [] then map[] else Sum(SumAll(cs[..|cs| - 1]), cs[|cs| - 1])
  }

  function TotalHits(updates: seq<Update>, k: Key): nat {
    if updates == [] then 0
    else
      var last := updates[|updates| - 1];
      TotalHits(updates[..|updates| - 1], k) + (if last.key == k then last.hits else 0)
  }

  ghost predicate HasKey(updates: seq<Update>, k: Key) {
    exists i :: 0 <= i < |updates| && updates[i].key == k
  }

  /** A key is counted iff it passes the filter and was seen. */
  lemma {:induction false} SeenKeys(updates: seq<Update>, filter: string, k: Key)
    ensures k in CountAll(updates, filter) <==> Passes(filter, k) && HasKey(updates, k)
  {
    if updates != [] {
      SeenKeys(updates[..|updates| - 1], filter, k);
      KeyOfLast(updates, k);
    }
  }

  /** Its counter is the sum of its hits modulo 2^64. */
  lemma {:induction false} CountsAreTotals(updates: seq<Update>, filter: string, k: Key)
    requires k in CountAll(updates, filter)
    ensures CountAll(updates, filter)[k] == TotalHits(updates, k) % UINT64_SIZE
  {
    var front, last := updates[..|updates| - 1], updates[|updates| - 1];
    AddRest(TotalHits(front, k), last.hits);
    SeenKeys(updates, filter, k);
    if k in CountAll(front, filter) {
      CountsAreTotals(front, filter, k);
    } else {
      SeenKeys(front, filter, k);
      NoHits(front, k);
      KeyOfLast(updates, k);
    }
  }

  lemma {:induction false} KeyOfLast(updates: seq<Update>, k: Key)
    requires updates != []
    ensures HasKey(updates, k) <==> HasKey(updates[..|updates| - 1], k) || updates[|updates| - 1].key == k
  {
    var front := updates[..|updates| - 1];
    if HasKey(front, k) {
      var i :| 0 <= i < |front| && front[i].key == k;
      assert updates[i].key == k;
    }
  }

  lemma {:induction false} NoHits(updates: seq<Update>, k: Key)
    requires !HasKey(updates, k)
    ensures TotalHits(updates, k) == 0
  {
    if updates != [] {
      NoHits(updates[..|updates| - 1], k);
    }
  }

  lemma {:induction false} SumOfUpdated(a: Counts, b: Counts, key: Key, n: Uint64)
    ensures Sum(a, b[key := n]) == Sum(a, b)[key := if key in a then Add(a[key], n) else n]
  {
  }

  lemma {:induction false} CountedSum(a: Counts, b: Counts, filter: string, u: Update)
    ensures Counted(Sum(a, b), filter, u) == Sum(a, Counted(b, filter, u))
  {
    if Passes(filter, u.key) {
      if u.key in a && u.key in b {
        AddAssoc(a[u.key], b[u.key], u.hits);
      }
      SumOfUpdated(a, b, u.key, if u.key in b then Add(b[u.key], u.hits) else u.hits);
    }
  }

  lemma {:induction false} ConcatCounts(us: seq<Update>, vs: seq<Update>, filter: string)
    ensures CountAll(us + vs, filter) == Sum(CountAll(us, filter), CountAll(vs, filter))
  {
    if vs == [] {
      assert us + vs == us;
      assert Sum(CountAll(us, filter), map[]) == CountAll(us, filter);
    } else {
      var front, last := vs[..|vs| - 1], vs[|vs| - 1];
      ConcatCounts(us, front, filter);
      assert (us + vs)[..|us + vs| - 1] == us + front;
      CountedSum(CountAll(us, filter), CountAll(front, filter), filter, last);
    }
  }

  function Flatten(uss: seq<seq<Update>>): seq<Update> {
    if uss == [] then [] else Flatten(uss[..|uss| - 1]) + uss[|uss| - 1]
  }

  /** Adding up what several workers counted is counting all the updates of all workers. */
  lemma {:induction false} SumOfWorkers(uss: seq<seq<Update>>, filter: string)
    ensures SumAll(seq(|uss|, i requires 0 <= i < |uss| => CountAll(uss[i], filter))) == CountAll(Flatten(uss), filter)
  {
    var cs := seq(|uss|, i requires 0 <= i < |uss| => CountAll(uss[i], filter));
    if uss != [] {
      var front := uss[..|uss| - 1];
      SumOfWorkers(front, filter);
      assert cs[..|cs| - 1] == seq(|front|, i requires 0 <= i < |front| => CountAll(front[i], filter));
      ConcatCounts(Flatten(front), uss[|uss| - 1], filter);
    }
  }

  /** The part of the counts that belongs to a shard. */
  ghost function ShardCounts(c: Counts, hashes: Hashes, n: nat, shard: nat): (own: Counts)
    requires n > 0
    ensures forall k :: k in own <==> k in c && Hash(hashes, k) % n == shard
    ensures forall k :: k in own ==> own[k] == c[k]
  {
    Restrict(c, set k | k in c && Hash(hashes, k) % n == shard)
  }

  ghost function AllShardCounts(cs: seq<Counts>, hashes: Hashes, n: nat, shard: nat): (r: seq<Counts>)
    requires n > 0
    ensures |r| == |cs|
  {
    seq(|cs|, i requires 0 <= i < |cs| => ShardCounts(cs[i], hashes, n, shard))
  }

  /** Shards can be added up one by one. */
  lemma {:induction false} SumOfShards(cs: seq<Counts>, hashes: Hashes, n: nat, shard: nat)
    requires n > 0
    ensures SumAll(AllShardCounts(cs, hashes, n, shard)) == ShardCounts(SumAll(cs), hashes, n, shard)
  {
    if cs != [] {
      var front := cs[..|cs| - 1];
      SumOfShards(front, hashes, n, shard);
      assert AllShardCounts(cs, hashes, n, shard)[..|cs| - 1] == AllShardCounts(front, hashes, n, shard);
      ShardOfSum(SumAll(front), cs[|cs| - 1], hashes, n, shard);
    }
  }

  lemma {:induction false} ShardOfSum(a: Counts, b: Counts, hashes: Hashes, n: nat, shard: nat)
    requires n > 0
    ensures ShardCounts(Sum(a, b), hashes, n, shard) == Sum(ShardCounts(a, hashes, n, shard), ShardCounts(b, hashes, n, shard))
  {
  }

  // ---------- Maps with counters ----------

  class Counter {
    var hits: Uint64

    constructor (hits: Uint64)
      ensures this.hits == hits
    {
      this.hits := hits;
    }
  }

  ghost predicate NoAliases(m: map<Key, Counter>) {
    forall k1, k2 {:trigger m[k1], m[k2]} :: k1 in m && k2 in m && m[k1] == m[k2] ==> k1 == k2
  }

  ghost function CountsOf(m: map<Key, Counter>): (c: Counts)
    reads m.Values
    ensures c.Keys == m.Keys && forall k :: k in m ==> c[k] == m[k].hits
  {
    CountsOfKeys(m, m.Keys)
  }

  ghost function CountsOfKeys(m: map<Key, Counter>, keys: set<Key>): (c: Counts)
    requires keys <= m.Keys
    reads m.Values
    ensures c.Keys == keys && forall k :: k in keys ==> c[k] == m[k].hits
    decreases keys
  {
    if keys == {} then map[]
    else
      var k :| k in keys;
      CountsOfKeys(m, keys - {k})[k := m[k].hits]
  }

  /** The counters after merging those of the done keys. */
  ghost function Merged(m0: map<Key, Counter>, m1: map<Key, Counter>, done: set<Key>): (m: map<Key, Counter>)
    ensures m.Keys == m0.Keys + m1.Keys * done && forall k :: k in m ==> m[k] == if k in m0 then m0[k] else m1[k]
  {
    Restrict(m1, done) + m0
  }

  ghost function SumOfSome(a: Counts, b: Counts, done: set<Key>): Counts {
    Sum(a, Restrict(b, done))
  }

  lemma {:induction false} MergedHasNoAliases(m0: map<Key, Counter>, m1: map<Key, Counter>, done: set<Key>)
    requires NoAliases(m0) && NoAliases(m1) && m0.Values !! m1.Values
    ensures NoAliases(Merged(m0, m1, done))
    ensures Merged(m0, m1, done).Values <= m0.Values + m1.Values
    ensures forall k :: k in m1 && k !in done ==> m1[k] !in Merged(m0, m1, done).Values
  {
    var m := Merged(m0, m1, done);
    forall k1, k2 | k1 in m && k2 in m && m[k1] == m[k2]
      ensures k1 == k2
    {
      assert k1 in m0 ==> m[k1] in m0.Values;
      assert k2 in m0 ==> m[k2] in m0.Values;
      assert k1 !in m0 ==> m[k1] in m1.Values;
      assert k2 !in m0 ==> m[k2] in m1.Values;
    }
  }

  /** The counter of k can be merged into m: it is not there yet, and one that is there comes from m0. */
  ghost predicate CanTake(m: map<Key, Counter>, m0: map<Key, Counter>, m1: map<Key, Counter>, k: Key) {
    NoAliases(m) && k in m1 && m0.Values !! m1.Values && m1[k] !in m.Values && (k in m ==> k in m0 && m[k] == m0[k])
  }

  lemma {:induction false} MergedStep(m0: map<Key, Counter>, m1: map<Key, Counter>, done: set<Key>, k: Key)
    requires k in m1 && k !in done
    requires NoAliases(m0) && NoAliases(m1) && m0.Values !! m1.Values
    ensures CanTake(Merged(m0, m1, done), m0, m1, k)
  {
    MergedHasNoAliases(m0, m1, done);
  }

  lemma {:induction false} MergedWithOne(m0: map<Key, Counter>, m1: map<Key, Counter>, done: set<Key>, k: Key)
    requires k in m1 && k !in done
    ensures Merged(m0, m1, done + {k}) ==
            var m := Merged(m0, m1, done); if k in m then m else m[k := m1[k]]
  {
  }

  ghost function PlusOne(c: Counts, b: Counts, k: Key): Counts
    requires k in b
  {
    c[k := if k in c then Add(c[k], b[k]) else b[k]]
  }

  lemma {:induction false} SumStep(a: Counts, b: Counts, done: set<Key>, k: Key)
    requires k in b && k !in done
    ensures SumOfSome(a, b, done + {k}) == PlusOne(SumOfSome(a, b, done), b, k)
  {
  }

  /** What merging m1 into m0 has made of the counters and the counts. */
  ghost predicate InMerge(m: map<Key, Counter>, c: Counts, m0: map<Key, Counter>, m1: map<Key, Counter>, was: Counts, theirs: Counts, done: set<Key>) {
    NoAliases(m0) && NoAliases(m1) && m0.Values !! m1.Values && m1.Keys == theirs.Keys &&
    m == Merged(m0, m1, done) && c == SumOfSome(was, theirs, done)
  }

  lemma {:induction false} MergeStarts(m0: map<Key, Counter>, m1: map<Key, Counter>, was: Counts, theirs: Counts)
    requires NoAliases(m0) && NoAliases(m1) && m0.Values !! m1.Values && m1.Keys == theirs.Keys
    ensures InMerge(m0, was, m0, m1, was, theirs, m1.Keys - m1.Keys)
  {
  }

  lemma {:induction false} MergeGoesOn(m: map<Key, Counter>, c: Counts, m0: map<Key, Counter>, m1: map<Key, Counter>, was: Counts, theirs: Counts, rest: set<Key>, k: Key,
                                       m': map<Key, Counter>, c': Counts)
    requires InMerge(m, c, m0, m1, was, theirs, m1.Keys - rest)
    requires k in rest && rest <= m1.Keys
    requires m' == (if k in m then m else m[k := m1[k]]) && c' == PlusOne(c, theirs, k)
    ensures InMerge(m', c', m0, m1, was, theirs, m1.Keys - (rest - {k}))
  {
    MergedWithOne(m0, m1, m1.Keys - rest, k);
    SumStep(was, theirs, m1.Keys - rest, k);
    assert m1.Keys - (rest - {k}) == m1.Keys - rest + {k};
  }

  lemma {:induction false} SumOfAllKeys(a: Counts, b: Counts)
    ensures SumOfSome(a, b, b.Keys) == Sum(a, b)
  {
  }

  lemma {:induction false} MergeEnds(m: map<Key, Counter>, c: Counts, m0: map<Key, Counter>, m1: map<Key, Counter>, was: Counts, theirs: Counts, rest: set<Key>)
    requires InMerge(m, c, m0, m1, was, theirs, m1.Keys - rest) && rest == {}
    ensures NoAliases(m) && m.Values <= m0.Values + m1.Values && c == Sum(was, theirs)
  {
    MergedHasNoAliases(m0, m1, m1.Keys - rest);
    assert m1.Keys - rest == theirs.Keys;
    SumOfAllKeys(was, theirs);
  }

  class HitsMap {
    var filter: string
    var m: map<Key, Counter>

    constructor (filter: string)
      ensures this.filter == filter && m == map[]
    {
      this.filter := filter;
      m := map[];
    }

    method Reset()
      modifies this`filter, this`m
      ensures filter == "" && m == map[]
    {
      filter, m := "", map[];
    }

    function EntriesCount(): nat
      reads this
    {
      |m|
    }

    method NeedSkipKey(k: Key) returns (skip: bool)
      ensures skip == !Passes(filter, k)
    {
      if filter == "" {
        return false;
      }
      var found := Phrases.MatchSubstring(Text(k), filter);
      return !found;
    }

    method AddHits(k: Key, hits: Uint64)
      requires NoAliases(m) && k in m
      modifies m[k]
      ensures CountsOf(m) == old(CountsOf(m))[k := Add(old(m[k].hits), hits)]
    {
      var counter := m[k];
      counter.hits := Add(counter.hits, hits);
    }

    method SetState(k: Key, counter: Counter)
      modifies this`m
      ensures m == old(m)[k := counter]
    {
      m := m[k := counter];
    }

    /** Reports whether the map has got a new key. */
    method UpdateState(u: Update) returns (isNew: bool)
      requires NoAliases(m)
      modifies this`m, m.Values
      ensures NoAliases(m)
      ensures CountsOf(m) == Counted(old(CountsOf(m)), filter, u)
      ensures isNew <==> m != old(m)
      ensures isNew ==> u.key !in old(m) && u.key in m && m == old(m)[u.key := m[u.key]] && fresh(m[u.key])
    {
      var skip := NeedSkipKey(u.key);
      if skip {
        return false;
      }
      if u.key in m {
        AddHits(u.key, u.hits);
        return false;
      }
      var counter := new Counter(u.hits);
      SetState(u.key, counter);
      return true;
    }

    /** The counter is taken over when there is none for the key, and added to it otherwise. */
    method MergeCounter(k: Key, counter: Counter)
      requires NoAliases(m)
      modifies this`m, if k in m then {m[k]} else {}
      ensures m == if k in old(m) then old(m) else old(m)[k := counter]
      ensures CountsOf(m) == old(CountsOf(m))[k := if k in old(m) then Add(old(m[k].hits), old(counter.hits)) else old(counter.hits)]
    {
      if k !in m {
        SetState(k, counter);
      } else {
        AddHits(k, counter.hits);
      }
    }

    /** Adds the counters of src, which must not be used by src after that. */
    method MergeState(src: HitsMap)
      requires NoAliases(m) && NoAliases(src.m) && m.Values !! src.m.Values && src != this
      modifies this`m, m.Values
      ensures NoAliases(m) && m.Values <= old(m.Values) + src.m.Values
      ensures CountsOf(m) == Sum(old(CountsOf(m)), old(CountsOf(src.m)))
    {
      var rest := src.m.Keys;
      ghost var was, theirs, m0, m1 := CountsOf(m), CountsOf(src.m), m, src.m;
      MergeStarts(m0, m1, was, theirs);
      while rest != {}
        invariant rest <= m1.Keys && m1 == src.m
        invariant CountsOf(src.m) == theirs
        invariant InMerge(m, CountsOf(m), m0, m1, was, theirs, m1.Keys - rest)
      {
        var k :| k in rest;
        MergeTurn(src, k, m0, was, theirs, rest);
        rest := rest - {k};
      }
      MergeEnds(m, CountsOf(m), m0, m1, was, theirs, rest);
    }

    method MergeTurn(src: HitsMap, k: Key, ghost m0: map<Key, Counter>, ghost was: Counts, ghost theirs: Counts, ghost rest: set<Key>)
      requires src != this && k in rest && rest <= src.m.Keys && CountsOf(src.m) == theirs
      requires InMerge(m, CountsOf(m), m0, src.m, was, theirs, src.m.Keys - rest)
      modifies this`m, m0.Values
      ensures CountsOf(src.m) == theirs
      ensures InMerge(m, CountsOf(m), m0, src.m, was, theirs, src.m.Keys - (rest - {k}))
    {
      ghost var before, c, m1 := m, CountsOf(m), src.m;
      MergedStep(m0, m1, m1.Keys - rest, k);
      MergeOne(src, k, m0);
      assert src.m == m1;
      MergeGoesOn(before, c, m0, m1, was, theirs, rest, k, m, CountsOf(m));
    }

    method MergeOne(src: HitsMap, k: Key, ghost m0: map<Key, Counter>)
      requires src != this && CanTake(m, m0, src.m, k)
      modifies this`m, if k in m then {m[k]} else {}
      ensures m == if k in old(m) then old(m) else old(m)[k := src.m[k]]
      ensures CountsOf(src.m) == old(CountsOf(src.m))
      ensures CountsOf(m) == PlusOne(old(CountsOf(m)), old(CountsOf(src.m)), k)
    {
      MergeCounter(k, src.m[k]);
    }
  }

  // ---------- Switching to shards ----------

  function Shard(hashes: Hashes, n: nat, k: Key): (shard: nat)
    requires n > 0
    ensures shard < n
  {
    Hash(hashes, k) % n
  }

  ghost function Counters(maps: seq<HitsMap>): set<Counter>
    reads maps
  {
    set i, k | 0 <= i < |maps| && k in maps[i].m :: maps[i].m[k]
  }

  /** The maps are different objects and no counter is used twice. */
  ghost predicate Separate(maps: seq<HitsMap>)
    reads maps
  {
    (forall i, j :: 0 <= i < j < |maps| ==> maps[i] != maps[j]) && NoSharing(Ms(maps))
  }

  ghost function Ms(maps: seq<HitsMap>): (ms: seq<map<Key, Counter>>)
    reads maps
    ensures |ms| == |maps| && forall i :: 0 <= i < |maps| ==> ms[i] == maps[i].m
  {
    if maps == [] then [] else Ms(maps[..|maps| - 1]) + [maps[|maps| - 1].m]
  }

  ghost predicate NoSharing(ms: seq<map<Key, Counter>>) {
    (forall i :: 0 <= i < |ms| ==> NoAliases(ms[i])) &&
    (forall i, j :: 0 <= i < j < |ms| ==> ms[i].Values !! ms[j].Values)
  }

  /** One map may get a counter that is in no map. */
  lemma {:induction false} NewCounterIsNotShared(ms: seq<map<Key, Counter>>, n: nat, m: map<Key, Counter>, k: Key)
    requires NoSharing(ms) && n < |ms| && NoAliases(m)
    requires m.Values <= ms[n].Values || (k in m && m == ms[n][k := m[k]] && forall i :: 0 <= i < |ms| ==> m[k] !in ms[i].Values)
    ensures NoSharing(ms[n := m])
  {
    assert m.Values <= ms[n].Values + (if k in m then {m[k]} else {});
  }

  method UpdateOne(maps: seq<HitsMap>, n: nat, u: Update) returns (isNew: bool)
    requires Separate(maps) && n < |maps|
    modifies {maps[n]}`m, maps[n].m.Values
    ensures Separate(maps) && fresh(maps[n].m.Values - old(maps[n].m.Values)) && (!isNew ==> maps[n].m == old(maps[n].m))
    ensures CountsOf(maps[n].m) == Counted(old(CountsOf(maps[n].m)), maps[n].filter, u)
    ensures forall i :: 0 <= i < |maps| && i != n ==> maps[i].m == old(maps[i].m) && CountsOf(maps[i].m) == old(CountsOf(maps[i].m))
  {
    ghost var ms := Ms(maps);
    isNew := maps[n].UpdateState(u);
    forall i | 0 <= i < |maps| && i != n ensures maps[i].m == ms[i] && CountsOf(maps[i].m) == old(CountsOf(maps[i].m)) {
      assert ms[i].Values !! ms[n].Values;
    }
    NewCounterIsNotShared(ms, n, maps[n].m, u.key);
    assert Ms(maps) == ms[n := maps[n].m];
  }

  datatype Snapshot = Snapshot(separate: bool, cs: seq<Counts>, counters: set<Counter>)

  ghost function SnapshotOf(maps: seq<HitsMap>): Snapshot
    reads maps, Counters(maps)
  {
    Snapshot(Separate(maps), AllCounts(maps), Counters(maps))
  }

  ghost predicate Owns(hashes: Hashes, filter: string, maps: seq<HitsMap>, counts: Counts)
    requires |maps| > 0
    reads maps, Counters(maps)
  {
    (forall i :: 0 <= i < |maps| ==> maps[i].filter == filter) &&
    SnapshotOf(maps).separate && HoldsCounts(hashes, SnapshotOf(maps).cs, counts)
  }

  method UpdateOwner(hashes: Hashes, ghost filter: string, maps: seq<HitsMap>, ghost counts: Counts, shard: nat, u: Update) returns (isNew: bool)
    requires maps != [] && Owns(hashes, filter, maps, counts) && shard == Shard(hashes, |maps|, u.key)
    modifies {maps[shard]}`m, maps[shard].m.Values
    ensures Owns(hashes, filter, maps, Counted(counts, filter, u))
    ensures fresh(Counters(maps) - old(Counters(maps))) && (!isNew ==> maps[shard].m == old(maps[shard].m))
  {
    ghost var cs := AllCounts(maps);
    isNew := UpdateCounts(maps, shard, u);
    CountsStayHeld(hashes, cs, AllCounts(maps), counts, filter, u, shard);
  }

  method UpdateCounts(maps: seq<HitsMap>, n: nat, u: Update) returns (isNew: bool)
    requires Separate(maps) && n < |maps|
    modifies {maps[n]}`m, maps[n].m.Values
    ensures Separate(maps) && fresh(Counters(maps) - old(Counters(maps))) && (!isNew ==> maps[n].m == old(maps[n].m))
    ensures AllCounts(maps)[n] == Counted(old(AllCounts(maps)[n]), maps[n].filter, u)
    ensures forall i :: 0 <= i < |maps| && i != n ==> AllCounts(maps)[i] == old(AllCounts(maps)[i])
  {
    isNew := UpdateOne(maps, n, u);
    assert Counters(maps) <= old(Counters(maps)) + maps[n].m.Values;
    assert old(maps[n].m.Values) <= old(Counters(maps));
  }

  lemma {:induction false} CountsStayHeld(hashes: Hashes, cs: seq<Counts>, cs': seq<Counts>, counts: Counts, filter: string, u: Update, shard: nat)
    requires |cs'| == |cs| > 0 && shard == Shard(hashes, |cs|, u.key) && HoldsCounts(hashes, cs, counts)
    requires cs'[shard] == Counted(cs[shard], filter, u) && forall i :: 0 <= i < |cs| && i != shard ==> cs'[i] == cs[i]
    ensures HoldsCounts(hashes, cs', Counted(counts, filter, u))
  {
    OneIsCounted(counts, filter, u, hashes, |cs|, shard);
  }

  class HitsMapAdaptive {
    const hashes: Hashes
    var concurrency: nat
    var hm: HitsMap
    var hmShards: seq<HitsMap>
    ghost var filter: string
    ghost var counts: Counts

    ghost function Maps(): (maps: seq<HitsMap>)
      reads this
      ensures |maps| > 0
    {
      if hmShards == [] then [hm] else hmShards
    }

    ghost predicate Valid()
      reads this, hm, Maps(), Counters(Maps())
    {
      concurrency > 0 && (hmShards == [] || (|hmShards| == concurrency && hm.filter == "")) && hm !in hmShards &&
      Owns(hashes, filter, Maps(), counts)
    }

    constructor (hashes: Hashes, concurrency: nat, filter: string)
      requires concurrency > 0
      ensures Valid() && counts == map[] && this.filter == filter && this.hashes == hashes && this.concurrency == concurrency
      ensures fresh(hm) && Maps() == [hm] && Counters(Maps()) == {}
    {
      this.hashes, this.concurrency, this.filter, this.counts := hashes, concurrency, filter, map[];
      hm := new HitsMap(filter);
      hmShards := [];
      new;
      EmptyOwns(hashes, filter, hm);
    }

    /** Forgets everything counted; the filter of a map that has moved to shards is forgotten, too. */
    method Clear()
      requires Valid()
      modifies this
      ensures Valid() && counts == map[] && hmShards == [] && concurrency == old(concurrency)
      ensures filter == if old(hmShards) == [] then old(filter) else ""
      ensures fresh(Maps()) && Counters(Maps()) == {}
    {
      filter := hm.filter;
      hm := new HitsMap(hm.filter);
      hmShards := [];
      counts := map[];
      EmptyOwns(hashes, filter, hm);
    }

    /** Counts the key; the map moves to shards when it has got too many keys. */
    method UpdateState(u: Update)
      requires Valid()
      modifies this, Maps(), Counters(Maps())
      ensures Valid() && counts == Counted(old(counts), filter, u)
      ensures filter == old(filter) && concurrency == old(concurrency) && hm == old(hm)
      ensures if old(hmShards) == [] then MovesWhenFull(|old(counts)|) else hmShards == old(hmShards)
      ensures forall i :: 0 <= i < |Maps()| ==> Maps()[i] in old(Maps()) || fresh(Maps()[i])
      ensures fresh(Counters(Maps()) - old(Counters(Maps())))
    {
      if hmShards == [] {
        UpdateSmall(u);
        return;
      }
      var isNew := UpdateMap(hmShards, Shard(hashes, |hmShards|, u.key), u);
    }

    /** The map has moved to shards exactly when it has got 4096 keys. */
    ghost predicate MovesWhenFull(keysBefore: nat)
      reads this
    {
      keysBefore < 4096 ==> (hmShards == [] <==> |counts| < 4096)
    }

    method UpdateSmall(u: Update)
      requires Valid() && hmShards == []
      modifies this, hm, hm.m.Values
      ensures Valid() && counts == Counted(old(counts), filter, u) && MovesWhenFull(|old(counts)|)
      ensures filter == old(filter) && concurrency == old(concurrency) && hm == old(hm) && fresh(hmShards)
      ensures fresh(Counters(Maps()) - old(Counters(Maps())))
    {
      var isNew := UpdateUnsharded(u);
      if isNew {
        ProbablyMoveToShards();
      }
    }

    method UpdateUnsharded(u: Update) returns (isNew: bool)
      requires Valid() && hmShards == []
      modifies this`counts, hm`m, hm.m.Values
      ensures Valid() && counts == Counted(old(counts), filter, u)
      ensures |counts| == |hm.m| && (!isNew ==> |counts| == |old(counts)|)
      ensures fresh(Counters(Maps()) - old(Counters(Maps())))
    {
      CountsOfMap();
      isNew := UpdateMap([hm], 0, u);
      CountsOfMap();
    }

    lemma {:induction false} CountsOfMap()
      requires Valid() && hmShards == []
      ensures |counts| == |hm.m|
    {
      OnlyMapHolds(hashes, filter, hm, counts);
      assert ShardCounts(counts, hashes, 1, 0).Keys == counts.Keys;
      assert |hm.m.Keys| == |counts.Keys|;
    }

    method UpdateMap(maps: seq<HitsMap>, shard: nat, u: Update) returns (isNew: bool)
      requires maps != [] && Owns(hashes, filter, maps, counts) && shard == Shard(hashes, |maps|, u.key)
      modifies this`counts, {maps[shard]}`m, maps[shard].m.Values
      ensures Owns(hashes, filter, maps, counts) && counts == Counted(old(counts), filter, u)
      ensures fresh(Counters(maps) - old(Counters(maps))) && (!isNew ==> maps[shard].m == old(maps[shard].m))
    {
      isNew := UpdateOwner(hashes, filter, maps, counts, shard, u);
      counts := Counted(counts, filter, u);
    }

    method ProbablyMoveToShards()
      requires Valid() && hmShards == []
      modifies this`hmShards, hm`filter, hm`m
      ensures Valid() && counts == old(counts) && filter == old(filter) && concurrency == old(concurrency)
      ensures hmShards == [] <==> old(|hm.m|) < 4096
      ensures hmShards == [] ==> hm == old(hm)
      ensures fresh(hmShards)
      ensures Counters(Maps()) <= old(Counters(Maps()))
    {
      if hm.EntriesCount() < HITS_MAP_ADAPTIVE_MAX_LEN {
        return;
      }
      MoveToShards();
    }

    /** The counters go to the shards of their keys. */
    method MoveToShards()
      requires Valid() && hmShards == []
      modifies this`hmShards, hm`filter, hm`m
      ensures Valid() && counts == old(counts) && filter == old(filter) && concurrency == old(concurrency)
      ensures hmShards != [] && fresh(hmShards) && hm.filter == ""
      ensures Counters(Maps()) <= old(Counters(Maps()))
    {
      var shards := SplitToShards();
      assert Counters(shards) <= Counters([hm]);
      ghost var snapshot := SnapshotOf(shards);
      Adopt(shards);
      assert Counters(shards) == snapshot.counters;
    }

    method Adopt(shards: seq<HitsMap>)
      requires hm !in shards && shards != []
      modifies this`hmShards, hm`filter, hm`m
      ensures hmShards == shards && SnapshotOf(shards) == old(SnapshotOf(shards)) && hm.filter == ""
      ensures forall i :: 0 <= i < |shards| ==> shards[i].filter == old(shards[i].filter)
    {
      ghost var counters: set<object> := Counters(shards);
      assert hm !in counters && this !in counters;
      hm.Reset();
      assert SnapshotOf(shards) == old(SnapshotOf(shards));
      hmShards := shards;
    }

    method SplitToShards() returns (shards: seq<HitsMap>)
      requires Valid() && hmShards == []
      ensures |shards| == concurrency && fresh(shards)
      ensures Owns(hashes, filter, shards, counts)
      ensures Counters(shards) <= Counters([hm])
    {
      shards := NewHitsMapShards(concurrency, hm.filter);
      FillShards(shards);
      OnlyMapHolds(hashes, filter, hm, counts);
      PartsOwn(hm.m, hashes, filter, shards, counts);
    }

    method FillShards(shards: seq<HitsMap>)
      requires shards != [] && hm !in shards
      requires forall i, j :: 0 <= i < j < |shards| ==> shards[i] != shards[j]
      requires forall i :: 0 <= i < |shards| ==> shards[i].m == map[]
      modifies shards`m
      ensures forall i :: 0 <= i < |shards| ==> shards[i].m == Part(hm.m, hashes, |shards|, i, hm.m.Keys)
    {
      var rest := hm.m.Keys;
      ghost var m0 := hm.m;
      while rest != {}
        invariant rest <= m0.Keys && hm.m == m0
        invariant forall i :: 0 <= i < |shards| ==> shards[i].m == Part(m0, hashes, |shards|, i, m0.Keys - rest)
      {
        var k :| k in rest;
        PutInShard(shards, k, m0, m0.Keys - rest);
        assert m0.Keys - (rest - {k}) == m0.Keys - rest + {k};
        rest := rest - {k};
      }
      assert m0.Keys - rest == m0.Keys;
    }

    method PutInShard(shards: seq<HitsMap>, k: Key, ghost m0: map<Key, Counter>, ghost done: set<Key>)
      requires |shards| > 0 && k in hm.m && hm.m == m0 && k !in done
      requires forall i, j :: 0 <= i < j < |shards| ==> shards[i] != shards[j]
      requires forall i :: 0 <= i < |shards| ==> shards[i].m == Part(m0, hashes, |shards|, i, done)
      modifies shards`m
      ensures forall i :: 0 <= i < |shards| ==> shards[i].m == Part(m0, hashes, |shards|, i, done + {k})
    {
      var shard := shards[Shard(hashes, |shards|, k)];
      shard.SetState(k, hm.m[k]);
    }
  }

  lemma {:induction false} CountedInShard(c: Counts, filter: string, u: Update, hashes: Hashes, n: nat, shard: nat)
    requires n > 0
    ensures ShardCounts(Counted(c, filter, u), hashes, n, shard) ==
            var own := ShardCounts(c, hashes, n, shard);
            if shard == Shard(hashes, n, u.key) then Counted(own, filter, u) else own
  {
  }

  lemma {:induction false} OneIsCounted(c: Counts, filter: string, u: Update, hashes: Hashes, n: nat, shard: nat)
    requires n > 0 && shard == Shard(hashes, n, u.key)
    ensures ShardCounts(Counted(c, filter, u), hashes, n, shard) == Counted(ShardCounts(c, hashes, n, shard), filter, u)
    ensures forall i :: 0 <= i < n && i != shard ==> ShardCounts(Counted(c, filter, u), hashes, n, i) == ShardCounts(c, hashes, n, i)
  {
    forall i | 0 <= i < n
      ensures i == shard ==> ShardCounts(Counted(c, filter, u), hashes, n, i) == Counted(ShardCounts(c, hashes, n, i), filter, u)
      ensures i != shard ==> ShardCounts(Counted(c, filter, u), hashes, n, i) == ShardCounts(c, hashes, n, i)
    {
      CountedInShard(c, filter, u, hashes, n, i);
    }
  }

  ghost function Part(m: map<Key, Counter>, hashes: Hashes, n: nat, shard: nat, keys: set<Key>): map<Key, Counter>
    requires n > 0
  {
    Restrict(m, set k | k in keys && Shard(hashes, n, k) == shard)
  }

  lemma {:induction false} PartsAreSeparate(m: map<Key, Counter>, hashes: Hashes, shards: seq<HitsMap>)
    requires NoAliases(m) && shards != []
    requires forall i :: 0 <= i < |shards| ==> shards[i].m == Part(m, hashes, |shards|, i, m.Keys)
    ensures NoSharing(Ms(shards)) && Counters(shards) <= m.Values
  {
  }

  /** What a single map holds are all counts. */
  lemma {:induction false} OnlyMapHolds(hashes: Hashes, filter: string, hm: HitsMap, counts: Counts)
    requires Owns(hashes, filter, [hm], counts)
    ensures NoAliases(hm.m) && hm.filter == filter && CountsOf(hm.m) == ShardCounts(counts, hashes, 1, 0)
    ensures hm.m.Values <= Counters([hm])
  {
    assert [hm][0] == hm && Ms([hm])[0] == hm.m && AllCounts([hm])[0] == CountsOf(hm.m);
  }

  /** The parts of a map own its counts. */
  lemma {:induction false} PartsOwn(m: map<Key, Counter>, hashes: Hashes, filter: string, shards: seq<HitsMap>, counts: Counts)
    requires shards != [] && NoAliases(m) && CountsOf(m) == ShardCounts(counts, hashes, 1, 0)
    requires forall i, j :: 0 <= i < j < |shards| ==> shards[i] != shards[j]
    requires forall i :: 0 <= i < |shards| ==> shards[i].filter == filter && shards[i].m == Part(m, hashes, |shards|, i, m.Keys)
    ensures Owns(hashes, filter, shards, counts) && Counters(shards) <= m.Values
  {
    PartsAreSeparate(m, hashes, shards);
    PartsCount(m, hashes, filter, shards, counts);
  }

  lemma {:induction false} PartsCount(m: map<Key, Counter>, hashes: Hashes, filter: string, shards: seq<HitsMap>, counts: Counts)
    requires shards != [] && CountsOf(m) == ShardCounts(counts, hashes, 1, 0)
    requires forall i :: 0 <= i < |shards| ==> shards[i].filter == filter && shards[i].m == Part(m, hashes, |shards|, i, m.Keys)
    ensures HoldsCounts(hashes, AllCounts(shards), counts) && forall i :: 0 <= i < |shards| ==> shards[i].filter == filter
  {
  }

  method NewHitsMapShards(n: nat, filter: string) returns (shards: seq<HitsMap>)
    ensures |shards| == n && fresh(shards)
    ensures forall i, j :: 0 <= i < j < n ==> shards[i] != shards[j]
    ensures forall i :: 0 <= i < n ==> shards[i].filter == filter && shards[i].m == map[]
  {
    shards := [];
    for i := 0 to n
      invariant |shards| == i && fresh(shards)
      invariant forall j, k :: 0 <= j < k < i ==> shards[j] != shards[k]
      invariant forall j :: 0 <= j < i ==> shards[j].filter == filter && shards[j].m == map[]
    {
      var shard := new HitsMap(filter);
      shards := shards + [shard];
    }
  }

  /** Every map holds the counts of its shard. */
  ghost predicate HoldsCounts(hashes: Hashes, cs: seq<Counts>, counts: Counts) {
    forall i :: 0 <= i < |cs| ==> cs[i] == ShardCounts(counts, hashes, |cs|, i)
  }

  lemma {:induction false} NothingIsHeld(hashes: Hashes)
    ensures HoldsCounts(hashes, [map[]], map[])
  {
  }

  /** An empty map holds nothing. */
  lemma {:induction false} EmptyOwns(hashes: Hashes, filter: string, hm: HitsMap)
    requires hm.m == map[] && hm.filter == filter
    ensures Owns(hashes, filter, [hm], map[]) && Counters([hm]) == {}
  {
    NoCounters(hm);
    NothingIsHeld(hashes);
  }

  lemma {:induction false} NoCounters(hm: HitsMap)
    requires hm.m == map[]
    ensures Separate([hm]) && Counters([hm]) == {} && AllCounts([hm]) == [map[]]
  {
  }

  // ---------- Merging the counters of all workers ----------

  ghost function AllCounts(maps: seq<HitsMap>): (cs: seq<Counts>)
    reads maps, Counters(maps)
    ensures |cs| == |maps| && forall i :: 0 <= i < |maps| ==> cs[i] == CountsOf(maps[i].m)
  {
    seq(|maps|, i requires 0 <= i < |maps| reads maps, Counters(maps) => CountsOf(maps[i].m))
  }

  ghost function CountersIn(ms: seq<map<Key, Counter>>, n: nat): set<Counter>
    requires n <= |ms|
  {
    if n == 0 then {} else CountersIn(ms, n - 1) + ms[n - 1].Values
  }

  lemma {:induction false} LaterCountersDiffer(ms: seq<map<Key, Counter>>, n: nat)
    requires NoSharing(ms) && n <= |ms|
    ensures forall i :: n <= i < |ms| ==> ms[i].Values !! CountersIn(ms, n)
  {
    if n > 0 {
      LaterCountersDiffer(ms, n - 1);
    }
  }

  lemma {:induction false} CountersInColumn(col: seq<HitsMap>, n: nat)
    requires n <= |col|
    ensures CountersIn(Ms(col), n) <= Counters(col)
  {
    if n > 0 {
      CountersInColumn(col, n - 1);
    }
  }

  lemma {:induction false} ColumnStarts(col: seq<HitsMap>)
    requires col != [] && Separate(col)
    ensures ColumnMerged(col, 1, Ms(col), AllCounts(col))
  {
    var ms, cs := Ms(col), AllCounts(col);
    assert CountersIn(ms, 1) == CountersIn(ms, 0) + ms[0].Values;
    assert cs[..1] == [cs[0]];
    assert Sum(SumAll([]), cs[0]) == cs[0];
  }

  /** The first n maps of a column are merged into the first one, the others are as they were. */
  ghost predicate ColumnMerged(col: seq<HitsMap>, n: nat, ms: seq<map<Key, Counter>>, cs: seq<Counts>)
    requires 0 < n <= |col|
    reads col, Counters(col)
  {
    |ms| == |col| && |cs| == |col| && NoSharing(ms) &&
    (forall i, j :: 0 <= i < j < |col| ==> col[i] != col[j]) &&
    (forall i :: n <= i < |col| ==> col[i].m == ms[i] && CountsOf(col[i].m) == cs[i]) &&
    NoAliases(col[0].m) && col[0].m.Values <= CountersIn(ms, n) && CountsOf(col[0].m) == SumAll(cs[..n])
  }

  method MergeStateOf(col: seq<HitsMap>, n: nat, ghost ms: seq<map<Key, Counter>>, ghost cs: seq<Counts>)
    requires 0 < n < |col| && ColumnMerged(col, n, ms, cs)
    modifies {col[0]}`m, col[0].m.Values
    ensures ColumnMerged(col, n + 1, ms, cs)
  {
    LaterCountersDiffer(ms, n);
    col[0].MergeState(col[n]);
    assert forall i :: n < i < |col| ==> col[i].m == ms[i] && CountsOf(col[i].m) == cs[i];
    assert cs[..n + 1][..n] == cs[..n];
  }

  method MergeNext(col: seq<HitsMap>, n: nat, ghost ms: seq<map<Key, Counter>>, ghost cs: seq<Counts>)
    requires 0 < n < |col| && ColumnMerged(col, n, ms, cs)
    modifies {col[0]}`m, col[0].m.Values, col[n]
    ensures ColumnMerged(col, n + 1, ms, cs) && col[n].m == map[]
  {
    MergeStateOf(col, n, ms, cs);
    ResetMerged(col, n, ms, cs);
  }

  method ResetMerged(col: seq<HitsMap>, n: nat, ghost ms: seq<map<Key, Counter>>, ghost cs: seq<Counts>)
    requires 0 < n < |col| && ColumnMerged(col, n + 1, ms, cs)
    modifies col[n]
    ensures ColumnMerged(col, n + 1, ms, cs) && col[n].m == map[]
  {
    ghost var counters: set<object> := Counters(col);
    assert col[n] !in counters;
    col[n].Reset();
  }

  /** What one worker does. */
  method MergeColumn(col: seq<HitsMap>)
    requires col != [] && Separate(col)
    modifies col, Counters(col)
    ensures NoAliases(col[0].m) && col[0].m.Values <= old(Counters(col))
    ensures CountsOf(col[0].m) == SumAll(old(AllCounts(col)))
  {
    ghost var ms, cs := Ms(col), AllCounts(col);
    ColumnStarts(col);
    ghost var counters := Counters(col);
    forall i | 0 <= i <= |col|
      ensures CountersIn(ms, i) <= counters
    {
      CountersInColumn(col, i);
    }
    for n := 1 to |col|
      invariant ColumnMerged(col, n, ms, cs)
      invariant forall i :: 0 <= i <= |col| ==> CountersIn(ms, i) <= counters
    {
      MergeNext(col, n, ms, cs);
    }
    assert cs[..|col|] == cs;
  }

  ghost function MapSet(maps: seq<HitsMap>): set<HitsMap> {
    set i | 0 <= i < |maps| :: maps[i]
  }

  datatype Option<T> = None | Some(value: T)

  ghost predicate InMaps(maps: seq<HitsMap>, all: set<object>) {
    forall i :: 0 <= i < |maps| ==> maps[i] in all
  }

  /** The counts of a column of separate maps, all of whose objects are among the given ones. */
  ghost function ColumnWithin(col: seq<HitsMap>, repr: set<object>): Option<seq<Counts>>
    reads repr
  {
    if col != [] && InMaps(col, repr) && Counters(col) <= repr && Separate(col) then Some(AllCounts(col)) else None
  }

  datatype MapState = MapState(noAliases: bool, counters: set<Counter>, counts: Counts)

  ghost function MapWithin(hm: HitsMap, repr: set<object>): Option<MapState>
    reads repr
  {
    if hm in repr && hm.m.Values <= repr then Some(MapState(NoAliases(hm.m), hm.m.Values, CountsOf(hm.m))) else None
  }

  ghost function Union(reprs: seq<set<object>>): set<object> {
    set c, o | 0 <= c < |reprs| && o in reprs[c] :: o
  }

  /** The first n columns are merged; css are the counts before and reprs the objects of the columns. */
  ghost predicate ColumnsMerged(cols: seq<seq<HitsMap>>, n: nat, css: seq<seq<Counts>>, reprs: seq<set<object>>, results: seq<MapState>)
    reads Union(reprs)
  {
    |css| == |cols| && |reprs| == |cols| && |results| == n <= |cols| &&
    (forall a, b :: 0 <= a < |cols| && 0 <= b < |cols| && a != b ==> reprs[a] !! reprs[b]) &&
    (forall c :: n <= c < |cols| ==> ColumnWithin(cols[c], reprs[c]) == Some(css[c])) &&
    (forall c :: 0 <= c < n ==> cols[c] != [] && MapWithin(cols[c][0], reprs[c]) == Some(results[c]))
  }

  method MergeColumnOf(cols: seq<seq<HitsMap>>, n: nat, ghost css: seq<seq<Counts>>, ghost reprs: seq<set<object>>, ghost results: seq<MapState>)
      returns (ghost result: MapState)
    requires n < |cols| && ColumnsMerged(cols, n, css, reprs, results)
    modifies reprs[n]
    ensures ColumnsMerged(cols, n + 1, css, reprs, results + [result]) && cols[n] != []
    ensures result.noAliases && result.counts == SumAll(css[n])
  {
    result := MergeColumnWithin(cols[n], css[n], reprs[n]);
    forall c | 0 <= c < |cols| && c != n
      ensures c > n ==> ColumnWithin(cols[c], reprs[c]) == Some(css[c])
      ensures c < n ==> MapWithin(cols[c][0], reprs[c]) == Some(results[c])
    {
      assert reprs[n] !! reprs[c];
      assert c > n ==> old(ColumnWithin(cols[c], reprs[c])) == Some(css[c]);
      assert c < n ==> old(MapWithin(cols[c][0], reprs[c])) == Some(results[c]);
    }
  }

  method MergeColumnWithin(col: seq<HitsMap>, ghost cs: seq<Counts>, ghost repr: set<object>) returns (ghost result: MapState)
    requires ColumnWithin(col, repr) == Some(cs)
    modifies repr
    ensures col != [] && MapWithin(col[0], repr) == Some(result) && result.noAliases && result.counts == SumAll(cs)
  {
    assert InMaps(col, repr) && Counters(col) <= repr;
    MergeColumn(col);
    result := MapState(NoAliases(col[0].m), col[0].m.Values, CountsOf(col[0].m));
  }

  ghost function MapRepr(hm: HitsMap): set<object>
    reads hm
  {
    {hm} + hm.m.Values
  }

  ghost function ReprOf(col: seq<HitsMap>): set<object>
    reads col
  {
    set i, o | 0 <= i < |col| && o in MapRepr(col[i]) :: o
  }

  ghost function AllMaps(cols: seq<seq<HitsMap>>): set<HitsMap> {
    set c, i | 0 <= c < |cols| && 0 <= i < |cols[c]| :: cols[c][i]
  }

  ghost predicate SeparateColumns(cols: seq<seq<HitsMap>>)
    reads AllMaps(cols)
  {
    (forall c :: 0 <= c < |cols| ==> cols[c] != [] && Separate(cols[c])) &&
    (forall a, b :: 0 <= a < |cols| && 0 <= b < |cols| && a != b ==> ReprOf(cols[a]) !! ReprOf(cols[b]))
  }

  ghost function Reprs(cols: seq<seq<HitsMap>>): (reprs: seq<set<object>>)
    reads AllMaps(cols)
    ensures |reprs| == |cols| && forall c :: 0 <= c < |cols| ==> reprs[c] == ReprOf(cols[c])
  {
    seq(|cols|, c requires 0 <= c < |cols| reads AllMaps(cols) => ReprOf(cols[c]))
  }

  /** One worker per column; the workers share nothing, so that their order does not matter. */
  method MergeColumns(cols: seq<seq<HitsMap>>) returns (hms: seq<HitsMap>)
    requires SeparateColumns(cols)
    modifies Union(Reprs(cols))
    ensures |hms| == |cols| && NoSharing(Ms(hms))
    ensures forall c :: 0 <= c < |cols| ==> CountsOf(hms[c].m) == SumAll(old(AllCounts(cols[c])))
  {
    ghost var css := seq(|cols|, c requires 0 <= c < |cols| => old(AllCounts(cols[c])));
    ghost var reprs := Reprs(cols);
    ColumnsStart(cols, css, reprs);
    ghost var results;
    hms, results := MergeEach(cols, css, reprs);
    ColumnsEnd(cols, css, reprs, results, hms);
  }

  method MergeEach(cols: seq<seq<HitsMap>>, ghost css: seq<seq<Counts>>, ghost reprs: seq<set<object>>)
      returns (hms: seq<HitsMap>, ghost results: seq<MapState>)
    requires ColumnsMerged(cols, 0, css, reprs, [])
    modifies Union(reprs)
    ensures ColumnsMerged(cols, |cols|, css, reprs, results) && AreSums(results, css)
    ensures AreFirsts(hms, cols, |cols|)
  {
    hms := [];
    results := [];
    for n := 0 to |cols|
      invariant ColumnsMerged(cols, n, css, reprs, results)
      invariant AreFirsts(hms, cols, n)
      invariant AreSums(results, css)
    {
      ghost var result := MergeColumnOf(cols, n, css, reprs, results);
      AddSum(results, css, result);
      hms := hms + [cols[n][0]];
      results := results + [result];
    }
  }

  ghost predicate AreFirsts(hms: seq<HitsMap>, cols: seq<seq<HitsMap>>, n: nat) {
    |hms| == n <= |cols| && forall c :: 0 <= c < n ==> cols[c] != [] && hms[c] == cols[c][0]
  }

  ghost predicate AreSums(results: seq<MapState>, css: seq<seq<Counts>>) {
    |results| <= |css| &&
    forall c :: 0 <= c < |results| ==> results[c].noAliases && results[c].counts == SumAll(css[c])
  }

  lemma {:induction false} AddSum(results: seq<MapState>, css: seq<seq<Counts>>, result: MapState)
    requires AreSums(results, css) && |results| < |css|
    requires result.noAliases && result.counts == SumAll(css[|results|])
    ensures AreSums(results + [result], css)
  {
  }

  lemma {:induction false} ColumnsStart(cols: seq<seq<HitsMap>>, css: seq<seq<Counts>>, reprs: seq<set<object>>)
    requires SeparateColumns(cols) && |css| == |cols| && |reprs| == |cols|
    requires forall c :: 0 <= c < |cols| ==> css[c] == AllCounts(cols[c]) && reprs[c] == ReprOf(cols[c])
    ensures ColumnsMerged(cols, 0, css, reprs, [])
  {
    forall c | 0 <= c < |cols|
      ensures ColumnWithin(cols[c], reprs[c]) == Some(css[c])
    {
      assert Separate(cols[c]);
      forall i | 0 <= i < |cols[c]|
        ensures cols[c][i] in reprs[c] && cols[c][i].m.Values <= reprs[c]
      {
        assert MapRepr(cols[c][i]) <= reprs[c];
      }
    }
  }

  lemma {:induction false} ColumnsEnd(cols: seq<seq<HitsMap>>, css: seq<seq<Counts>>, reprs: seq<set<object>>, results: seq<MapState>, hms: seq<HitsMap>)
    requires ColumnsMerged(cols, |cols|, css, reprs, results) && AreSums(results, css)
    requires AreFirsts(hms, cols, |cols|)
    ensures NoSharing(Ms(hms))
    ensures forall c :: 0 <= c < |cols| ==> CountsOf(hms[c].m) == SumAll(css[c])
  {
    forall c | 0 <= c < |cols|
      ensures NoAliases(hms[c].m) && hms[c].m.Values <= reprs[c] && CountsOf(hms[c].m) == SumAll(css[c])
    {
      assert MapWithin(cols[c][0], reprs[c]) == Some(results[c]);
    }
  }

  // ---------- Merging the workers ----------

  /** What is known of a worker: what it has counted, and all its objects. */
  datatype WorkerState = WorkerState(
    valid: bool, sharded: bool, hashes: Hashes, concurrency: nat, filter: string, counts: Counts, repr: set<object>)

  /** The state of a worker whose objects are among the given ones. */
  ghost function StateWithin(hma: HitsMapAdaptive, repr: set<object>): Option<WorkerState>
    reads hma, repr
  {
    if hma in repr && hma.hm in repr && InMaps(hma.Maps(), repr) && Counters(hma.Maps()) <= repr
    then Some(WorkerState(hma.Valid(), hma.hmShards != [], hma.hashes, hma.concurrency, hma.filter, hma.counts, repr))
    else None
  }

  ghost predicate HasState(hma: HitsMapAdaptive, state: WorkerState)
    reads hma, state.repr
  {
    StateWithin(hma, state.repr) == Some(state)
  }

  /** The workers are alike and share nothing. */
  ghost predicate CanMerge(states: seq<WorkerState>) {
    (forall i :: 0 <= i < |states| ==> states[i].valid && states[i].hashes == states[0].hashes && states[i].concurrency == states[0].concurrency) &&
    (forall i, j :: 0 <= i < |states| && 0 <= j < |states| && i != j ==> states[i].repr !! states[j].repr)
  }

  ghost predicate IsMoved(before: WorkerState, after: WorkerState) {
    after.valid && after.sharded && after.hashes == before.hashes && after.concurrency == before.concurrency && after.counts == before.counts
  }

  method MoveHma(hma: HitsMapAdaptive, ghost before: WorkerState) returns (ghost after: WorkerState)
    requires HasState(hma, before) && before.valid
    modifies before.repr
    ensures HasState(hma, after) && IsMoved(before, after) && fresh(after.repr - before.repr)
  {
    if hma.hmShards == [] {
      assert hma.hm == hma.Maps()[0];
      hma.MoveToShards();
    }
    after := StateOf(hma);
  }

  method MoveOne(hmas: seq<HitsMapAdaptive>, n: nat, ghost states: seq<WorkerState>) returns (ghost state: WorkerState)
    requires n < |hmas| == |states| && HasState(hmas[n], states[n]) && states[n].valid
    requires forall i :: 0 <= i < |hmas| && i != n ==> HasState(hmas[i], states[i]) && states[i].repr !! states[n].repr
    modifies states[n].repr
    ensures HasState(hmas[n], state) && forall i :: 0 <= i < |hmas| && i != n ==> HasState(hmas[i], states[i])
    ensures IsMoved(states[n], state) && fresh(state.repr - states[n].repr)
  {
    state := MoveHma(hmas[n], states[n]);
    forall i | 0 <= i < |hmas| && i != n
      ensures HasState(hmas[i], states[i])
    {
      assert old(HasState(hmas[i], states[i])) && hmas[i] in states[i].repr;
      assert states[i].repr !! states[n].repr;
    }
  }

  ghost predicate HaveStates(hmas: seq<HitsMapAdaptive>, states: seq<WorkerState>)
    reads hmas, Objects(states)
  {
    |hmas| == |states| && forall i {:trigger HasState(hmas[i], states[i])} :: 0 <= i < |hmas| ==> HasState(hmas[i], states[i])
  }

  ghost function Objects(states: seq<WorkerState>): set<object> {
    set i, o | 0 <= i < |states| && o in states[i].repr :: o
  }

  ghost predicate AreMoved(before: seq<WorkerState>, after: seq<WorkerState>, n: nat) {
    |before| == |after| && n <= |before| &&
    (forall i :: 0 <= i < n ==> IsMoved(before[i], after[i])) &&
    (forall i :: n <= i < |before| ==> after[i] == before[i])
  }

  /** The first n workers have moved to shards; the added objects are those that they did not have. */
  ghost predicate Moving(hmas: seq<HitsMapAdaptive>, before: seq<WorkerState>, states: seq<WorkerState>, n: nat, added: set<object>)
    reads hmas, Objects(states)
  {
    HaveStates(hmas, states) && CanMerge(states) && AreMoved(before, states, n) && Objects(states) <= Objects(before) + added
  }

  method MoveAll(hmas: seq<HitsMapAdaptive>, ghost before: seq<WorkerState>) returns (ghost after: seq<WorkerState>, ghost added: set<object>)
    requires HaveStates(hmas, before) && CanMerge(before)
    modifies Objects(before)
    ensures Moving(hmas, before, after, |hmas|, added) && fresh(added)
  {
    after := before;
    added := {};
    for n := 0 to |hmas|
      invariant Moving(hmas, before, after, n, added) && fresh(added)
    {
      after, added := MoveNext(hmas, n, before, after, added);
    }
  }

  method MoveNext(hmas: seq<HitsMapAdaptive>, n: nat, ghost before: seq<WorkerState>, ghost states: seq<WorkerState>, ghost added0: set<object>)
      returns (ghost after: seq<WorkerState>, ghost added: set<object>)
    requires n < |hmas| && |before| == |hmas| && Moving(hmas, before, states, n, added0)
    modifies before[n].repr
    ensures Moving(hmas, before, after, n + 1, added) && fresh(added - added0)
  {
    ghost var state := MoveOne(hmas, n, states);
    ReplaceState(before, states, n, state);
    after := states[n := state];
    added := added0 + (state.repr - states[n].repr);
    ObjectsOfReplaced(states, n, state);
  }

  lemma {:induction false} ObjectsOfReplaced(states: seq<WorkerState>, n: nat, state: WorkerState)
    requires n < |states|
    ensures Objects(states[n := state]) <= Objects(states) + (state.repr - states[n].repr)
  {
    assert states[n].repr <= Objects(states);
  }

  lemma {:induction false} ReplaceState(before: seq<WorkerState>, states: seq<WorkerState>, n: nat, state: WorkerState)
    requires n < |states| && CanMerge(states) && IsMoved(states[n], state) && AreMoved(before, states, n)
    requires forall i :: 0 <= i < |states| && i != n ==> states[i].repr !! state.repr
    ensures CanMerge(states[n := state]) && AreMoved(before, states[n := state], n + 1)
  {
  }

  lemma {:induction false} RowFacts(hma: HitsMapAdaptive, state: WorkerState)
    requires HasState(hma, state) && state.valid && state.sharded
    ensures |hma.hmShards| == state.concurrency && Separate(hma.hmShards)
    ensures forall c :: 0 <= c < |hma.hmShards| ==> MapRepr(hma.hmShards[c]) <= state.repr
    ensures HoldsCounts(state.hashes, AllCounts(hma.hmShards), state.counts)
    ensures forall a, b :: 0 <= a < |hma.hmShards| && 0 <= b < |hma.hmShards| && a != b ==> MapRepr(hma.hmShards[a]) !! MapRepr(hma.hmShards[b])
  {
    assert hma.Maps() == hma.hmShards;
    ShardsShareNothing(hma.hmShards);
  }

  lemma {:induction false} ShardsShareNothing(maps: seq<HitsMap>)
    requires Separate(maps)
    ensures forall a, b :: 0 <= a < |maps| && 0 <= b < |maps| && a != b ==> MapRepr(maps[a]) !! MapRepr(maps[b])
  {
    forall a, b | 0 <= a < |maps| && 0 <= b < |maps| && a != b
      ensures MapRepr(maps[a]) !! MapRepr(maps[b])
    {
      assert Ms(maps)[a].Values !! Ms(maps)[b].Values;
      assert maps[a] != maps[b];
    }
  }

  /** The counter handed out for a key is the total of its hits, for exactly the keys that pass the filter. */
  lemma {:induction false} MergedIsTotal(uss: seq<seq<Update>>, filter: string, hashes: Hashes, n: nat, shard: nat, k: Key)
    requires shard < n
    ensures var cs := seq(|uss|, i requires 0 <= i < |uss| => CountAll(uss[i], filter));
            var merged := ShardCounts(SumAll(cs), hashes, n, shard);
            (k in merged <==> Shard(hashes, n, k) == shard && Passes(filter, k) && HasKey(Flatten(uss), k)) &&
            (k in merged ==> merged[k] == TotalHits(Flatten(uss), k) % UINT64_SIZE)
  {
    SumOfWorkers(uss, filter);
    SeenKeys(Flatten(uss), filter, k);
    if k in CountAll(Flatten(uss), filter) {
      CountsAreTotals(Flatten(uss), filter, k);
    }
  }

  /** The shards of one number of all workers. */
  function Column(hmas: seq<HitsMapAdaptive>, c: nat): (col: seq<HitsMap>)
    requires forall i :: 0 <= i < |hmas| ==> c < |hmas[i].hmShards|
    reads hmas
    ensures |col| == |hmas| && forall i :: 0 <= i < |hmas| ==> col[i] == hmas[i].hmShards[c]
  {
    if hmas == [] then [] else Column(hmas[..|hmas| - 1], c) + [hmas[|hmas| - 1].hmShards[c]]
  }

  ghost predicate AreColumns(hmas: seq<HitsMapAdaptive>, n: nat, cols: seq<seq<HitsMap>>)
    reads hmas
  {
    hmas != [] && |cols| == n && (forall i :: 0 <= i < |hmas| ==> |hmas[i].hmShards| == n) &&
    forall c :: 0 <= c < n ==> cols[c] == Column(hmas, c)
  }

  ghost predicate AllSharded(hmas: seq<HitsMapAdaptive>, states: seq<WorkerState>, n: nat)
    reads hmas, Objects(states)
  {
    HaveStates(hmas, states) && CanMerge(states) && forall i :: 0 <= i < |states| ==> states[i].sharded && states[i].concurrency == n
  }

  lemma {:induction false} ObjectOfColumn(hmas: seq<HitsMapAdaptive>, states: seq<WorkerState>, n: nat, c: nat, o: object) returns (i: nat)
    requires AllSharded(hmas, states, n) && c < n
    requires forall i :: 0 <= i < |hmas| ==> |hmas[i].hmShards| == n
    requires o in ReprOf(Column(hmas, c))
    ensures i < |hmas| && o in MapRepr(hmas[i].hmShards[c]) && o in states[i].repr
  {
    i :| 0 <= i < |hmas| && o in MapRepr(Column(hmas, c)[i]);
    assert HasState(hmas[i], states[i]);
    RowFacts(hmas[i], states[i]);
  }

  lemma {:induction false} ColumnsShareNothing(hmas: seq<HitsMapAdaptive>, states: seq<WorkerState>, n: nat, a: nat, b: nat)
    requires AllSharded(hmas, states, n) && a < n && b < n && a != b
    requires forall i :: 0 <= i < |hmas| ==> |hmas[i].hmShards| == n
    ensures ReprOf(Column(hmas, a)) !! ReprOf(Column(hmas, b))
  {
    forall o | o in ReprOf(Column(hmas, a)) && o in ReprOf(Column(hmas, b))
      ensures false
    {
      var i := ObjectOfColumn(hmas, states, n, a, o);
      var j := ObjectOfColumn(hmas, states, n, b, o);
      assert i == j;
      assert HasState(hmas[i], states[i]);
      RowFacts(hmas[i], states[i]);
    }
  }

  lemma {:induction false} ShardFacts(hma: HitsMapAdaptive, state: WorkerState, c: nat)
    requires HasState(hma, state) && state.valid && state.sharded && c < |hma.hmShards|
    ensures NoAliases(hma.hmShards[c].m) && MapRepr(hma.hmShards[c]) <= state.repr
  {
    RowFacts(hma, state);
    assert Ms(hma.hmShards)[c] == hma.hmShards[c].m;
  }

  lemma {:induction false} ShardsOfTwoWorkers(a: HitsMapAdaptive, b: HitsMapAdaptive, stateA: WorkerState, stateB: WorkerState, c: nat)
    requires HasState(a, stateA) && stateA.valid && stateA.sharded && c < |a.hmShards|
    requires HasState(b, stateB) && stateB.valid && stateB.sharded && c < |b.hmShards|
    requires stateA.repr !! stateB.repr
    ensures a.hmShards[c] != b.hmShards[c] && a.hmShards[c].m.Values !! b.hmShards[c].m.Values
  {
    ShardFacts(a, stateA, c);
    ShardFacts(b, stateB, c);
    assert a.hmShards[c] in MapRepr(a.hmShards[c]) && b.hmShards[c] in MapRepr(b.hmShards[c]);
  }

  lemma {:induction false} ShardsOfWorkers(hmas: seq<HitsMapAdaptive>, states: seq<WorkerState>, n: nat, c: nat, i: nat, j: nat)
    requires AllSharded(hmas, states, n) && i < |hmas| && j < |hmas|
    requires c < |hmas[i].hmShards| && c < |hmas[j].hmShards|
    ensures NoAliases(hmas[i].hmShards[c].m)
    ensures i != j ==> hmas[i].hmShards[c] != hmas[j].hmShards[c] && hmas[i].hmShards[c].m.Values !! hmas[j].hmShards[c].m.Values
  {
    assert HasState(hmas[i], states[i]) && HasState(hmas[j], states[j]);
    ShardFacts(hmas[i], states[i], c);
    if i != j {
      ShardsOfTwoWorkers(hmas[i], hmas[j], states[i], states[j], c);
    }
  }

  lemma {:induction false} ColumnIsSeparate(hmas: seq<HitsMapAdaptive>, states: seq<WorkerState>, n: nat, c: nat)
    requires AllSharded(hmas, states, n) && c < n
    requires forall i :: 0 <= i < |hmas| ==> |hmas[i].hmShards| == n
    ensures Separate(Column(hmas, c))
  {
    var col := Column(hmas, c);
    forall i, j | 0 <= i < |col| && 0 <= j < |col|
      ensures NoAliases(col[i].m) && (i != j ==> col[i] != col[j] && col[i].m.Values !! col[j].m.Values)
    {
      ShardsOfWorkers(hmas, states, n, c, i, j);
    }
    AreSeparate(col);
  }

  lemma {:induction false} AreSeparate(col: seq<HitsMap>)
    requires forall i, j :: 0 <= i < |col| && 0 <= j < |col| ==>
      NoAliases(col[i].m) && (i != j ==> col[i] != col[j] && col[i].m.Values !! col[j].m.Values)
    ensures Separate(col)
  {
  }

  /** The counts in a column are the workers' counts of the keys of its shard. */
  lemma {:induction false} ColumnCounts(hmas: seq<HitsMapAdaptive>, states: seq<WorkerState>, n: nat, c: nat)
    requires AllSharded(hmas, states, n) && c < n && hmas != []
    requires forall i :: 0 <= i < |hmas| ==> |hmas[i].hmShards| == n
    ensures AllCounts(Column(hmas, c)) == AllShardCounts(CountsOfStates(states), states[0].hashes, n, c)
  {
    var col := Column(hmas, c);
    forall i | 0 <= i < |hmas|
      ensures CountsOf(col[i].m) == ShardCounts(states[i].counts, states[0].hashes, n, c)
    {
      assert HasState(hmas[i], states[i]);
      RowFacts(hmas[i], states[i]);
      assert AllCounts(hmas[i].hmShards)[c] == CountsOf(col[i].m);
    }
  }

  ghost function CountsOfStates(states: seq<WorkerState>): (cs: seq<Counts>)
    ensures |cs| == |states| && forall i :: 0 <= i < |cs| ==> cs[i] == states[i].counts
  {
    seq(|states|, i requires 0 <= i < |states| => states[i].counts)
  }

  lemma {:induction false} ColumnObjects(hmas: seq<HitsMapAdaptive>, states: seq<WorkerState>, n: nat, cols: seq<seq<HitsMap>>)
    requires AllSharded(hmas, states, n) && AreColumns(hmas, n, cols)
    ensures Union(Reprs(cols)) <= Objects(states)
  {
    forall o | o in Union(Reprs(cols))
      ensures o in Objects(states)
    {
      var c :| 0 <= c < |cols| && o in Reprs(cols)[c];
      var i := ObjectOfColumn(hmas, states, n, c, o);
    }
  }

  lemma {:induction false} ColumnsAreSeparate(hmas: seq<HitsMapAdaptive>, states: seq<WorkerState>, n: nat, cols: seq<seq<HitsMap>>)
    requires AllSharded(hmas, states, n) && AreColumns(hmas, n, cols)
    ensures SeparateColumns(cols)
  {
    forall c | 0 <= c < n
      ensures cols[c] != [] && Separate(cols[c])
    {
      ColumnIsSeparate(hmas, states, n, c);
    }
    forall a, b | 0 <= a < n && 0 <= b < n && a != b
      ensures ReprOf(cols[a]) !! ReprOf(cols[b])
    {
      ColumnsShareNothing(hmas, states, n, a, b);
    }
  }

  lemma {:induction false} RowsAreSharded(hmas: seq<HitsMapAdaptive>, states: seq<WorkerState>, n: nat)
    requires AllSharded(hmas, states, n)
    ensures forall i :: 0 <= i < |hmas| ==> |hmas[i].hmShards| == n
  {
    forall i | 0 <= i < |hmas|
      ensures |hmas[i].hmShards| == n
    {
      assert HasState(hmas[i], states[i]);
      RowFacts(hmas[i], states[i]);
    }
  }

  /**
    * The workers' counters merged by shard: the maps share no key and no counter, and together they
    * hold the sums of all workers' counts.
    */
  method HitsMapMergeParallel(hmas: seq<HitsMapAdaptive>, ghost states: seq<WorkerState>) returns (hms: seq<HitsMap>)
    requires HaveStates(hmas, states) && CanMerge(states)
    modifies Objects(states)
    ensures hmas == [] ==> hms == []
    ensures hmas != [] ==> |hms| == states[0].concurrency && NoSharing(Ms(hms))
    ensures forall c :: 0 <= c < |hms| ==>
      CountsOf(hms[c].m) == ShardCounts(SumAll(CountsOfStates(states)), states[0].hashes, |hms|, c)
    ensures forall a, b :: 0 <= a < b < |hms| ==> hms[a].m.Keys !! hms[b].m.Keys
  {
    if |hmas| == 0 {
      return [];
    }
    ghost var after, added := MoveAll(hmas, states);
    AllAreSharded(hmas, states, after);
    hms := MergeShards(hmas, states[0].concurrency, after);
    ghost var total := SumAll(CountsOfStates(states));
    forall a, b | 0 <= a < b < |hms|
      ensures hms[a].m.Keys !! hms[b].m.Keys
    {
      assert hms[a].m.Keys == ShardCounts(total, states[0].hashes, |hms|, a).Keys;
      assert hms[b].m.Keys == ShardCounts(total, states[0].hashes, |hms|, b).Keys;
    }
  }

  lemma {:induction false} AllAreSharded(hmas: seq<HitsMapAdaptive>, before: seq<WorkerState>, after: seq<WorkerState>)
    requires HaveStates(hmas, after) && CanMerge(before) && CanMerge(after) && AreMoved(before, after, |before|) && hmas != []
    ensures AllSharded(hmas, after, before[0].concurrency)
    ensures CountsOfStates(after) == CountsOfStates(before) && after[0].hashes == before[0].hashes
  {
  }

  method MergeShards(hmas: seq<HitsMapAdaptive>, ghost n: nat, ghost states: seq<WorkerState>) returns (hms: seq<HitsMap>)
    requires hmas != [] && AllSharded(hmas, states, n)
    modifies Objects(states)
    ensures |hms| == n && NoSharing(Ms(hms))
    ensures forall c :: 0 <= c < n ==> CountsOf(hms[c].m) == ShardCounts(SumAll(CountsOfStates(states)), states[0].hashes, n, c)
  {
    RowsAreSharded(hmas, states, n);
    var cols := GetColumns(hmas, n);
    ColumnsAreSeparate(hmas, states, n, cols);
    ColumnObjects(hmas, states, n, cols);
    SumsOfColumns(hmas, states, n, cols);
    hms := MergeColumns(cols);
  }

  method GetColumns(hmas: seq<HitsMapAdaptive>, ghost n: nat) returns (cols: seq<seq<HitsMap>>)
    requires hmas != [] && forall i :: 0 <= i < |hmas| ==> |hmas[i].hmShards| == n
    ensures AreColumns(hmas, n, cols)
  {
    var cpusCount := |hmas[0].hmShards|;
    cols := [];
    for c := 0 to cpusCount
      invariant |cols| == c && forall k :: 0 <= k < c ==> cols[k] == Column(hmas, k)
    {
      cols := cols + [Column(hmas, c)];
    }
  }

  lemma {:induction false} SumsOfColumns(hmas: seq<HitsMapAdaptive>, states: seq<WorkerState>, n: nat, cols: seq<seq<HitsMap>>)
    requires AllSharded(hmas, states, n) && AreColumns(hmas, n, cols)
    ensures forall c :: 0 <= c < n ==> SumAll(AllCounts(cols[c])) == ShardCounts(SumAll(CountsOfStates(states)), states[0].hashes, n, c)
  {
    forall c | 0 <= c < n
      ensures SumAll(AllCounts(cols[c])) == ShardCounts(SumAll(CountsOfStates(states)), states[0].hashes, n, c)
    {
      ColumnCounts(hmas, states, n, c);
      SumOfShards(CountsOfStates(states), states[0].hashes, n, c);
    }
  }

  // ---------- Counting and merging ----------

  /** A worker that has got these updates. */
  method RunWorker(hashes: Hashes, concurrency: nat, filter: string, us: seq<Update>) returns (hma: HitsMapAdaptive, ghost state: WorkerState)
    requires concurrency > 0
    ensures fresh(state.repr) && HasState(hma, state) && IsWorker(state, hashes, concurrency, filter, CountAll(us, filter))
  {
    if us == [] {
      hma, state := NewWorker(hashes, concurrency, filter);
      return;
    }
    hma, state := RunWorker(hashes, concurrency, filter, us[..|us| - 1]);
    state := UpdateWorker(hma, us[|us| - 1], state);
  }

  method NewWorker(hashes: Hashes, concurrency: nat, filter: string) returns (hma: HitsMapAdaptive, ghost state: WorkerState)
    requires concurrency > 0
    ensures fresh(state.repr) && HasState(hma, state) && IsWorker(state, hashes, concurrency, filter, map[])
  {
    hma := new HitsMapAdaptive(hashes, concurrency, filter);
    state := StateOf(hma);
    assert MapSet([hma.hm]) == {hma.hm};
    assert state.repr == {hma, hma.hm};
  }

  /** The state of a worker with exactly its objects. */
  lemma {:induction false} StateOf(hma: HitsMapAdaptive) returns (state: WorkerState)
    ensures HasState(hma, state) && state.repr == {hma, hma.hm} + MapSet(hma.Maps()) + Counters(hma.Maps())
    ensures state.valid == hma.Valid() && state.hashes == hma.hashes && state.concurrency == hma.concurrency
    ensures state.filter == hma.filter && state.counts == hma.counts && state.sharded == (hma.hmShards != [])
  {
    var repr: set<object> := {hma, hma.hm} + MapSet(hma.Maps()) + Counters(hma.Maps());
    assert InMaps(hma.Maps(), repr);
    state := StateWithin(hma, repr).value;
  }

  method UpdateWorker(hma: HitsMapAdaptive, u: Update, ghost before: WorkerState) returns (ghost after: WorkerState)
    requires HasState(hma, before) && before.valid
    modifies before.repr
    ensures HasState(hma, after) && fresh(after.repr - before.repr)
    ensures IsWorker(after, before.hashes, before.concurrency, before.filter, Counted(before.counts, before.filter, u))
  {
    UpdateWithin(hma, u, before.repr);
    after := StateOf(hma);
  }

  /** An update only adds new objects. */
  method UpdateWithin(hma: HitsMapAdaptive, u: Update, ghost repr: set<object>)
    requires hma.Valid() && hma in repr && hma.hm in repr && InMaps(hma.Maps(), repr) && Counters(hma.Maps()) <= repr
    modifies repr
    ensures hma.Valid() && hma.counts == Counted(old(hma.counts), hma.filter, u)
    ensures hma.filter == old(hma.filter) && hma.concurrency == old(hma.concurrency) && hma.hm == old(hma.hm)
    ensures forall o :: o in MapSet(hma.Maps()) + Counters(hma.Maps()) && o !in repr ==> fresh(o)
  {
    ghost var maps := hma.Maps();
    hma.UpdateState(u);
    forall m | m in MapSet(hma.Maps()) && m !in repr ensures fresh(m) {
      var i :| 0 <= i < |hma.Maps()| && hma.Maps()[i] == m;
      assert m !in maps;
    }
  }

  /** Whatever the updates of the workers are: after all of them and the merge, every map holds the part of its shard of what
      a single map would have counted; CountsAreTotals and SeenKeys tell what that is. */
  method CountHits(hashes: Hashes, concurrency: nat, filter: string, uss: seq<seq<Update>>) returns (hms: seq<HitsMap>)
    requires concurrency > 0 && uss != []
    ensures |hms| == concurrency && NoSharing(Ms(hms))
    ensures forall c :: 0 <= c < concurrency ==> CountsOf(hms[c].m) == ShardCounts(CountAll(Flatten(uss), filter), hashes, concurrency, c)
  {
    var hmas;
    ghost var states;
    hmas, states := RunWorkers(hashes, concurrency, filter, uss);
    hms := MergeWorkers(hmas, states, hashes, concurrency, filter, uss);
  }

  method MergeWorkers(hmas: seq<HitsMapAdaptive>, ghost states: seq<WorkerState>, hashes: Hashes, concurrency: nat, filter: string,
                      ghost uss: seq<seq<Update>>) returns (hms: seq<HitsMap>)
    requires concurrency > 0 && uss != [] && HaveStates(hmas, states) && AreWorkers(states, hashes, concurrency, filter, uss, |uss|)
    modifies Objects(states)
    ensures |hms| == concurrency && NoSharing(Ms(hms))
    ensures forall c :: 0 <= c < concurrency ==> CountsOf(hms[c].m) == ShardCounts(CountAll(Flatten(uss), filter), hashes, concurrency, c)
  {
    hms := HitsMapMergeParallel(hmas, states);
    AreTotals(states, uss, filter, hashes, concurrency);
  }

  method RunWorkers(hashes: Hashes, concurrency: nat, filter: string, uss: seq<seq<Update>>)
    returns (hmas: seq<HitsMapAdaptive>, ghost states: seq<WorkerState>)
    requires concurrency > 0
    ensures HaveStates(hmas, states) && AreWorkers(states, hashes, concurrency, filter, uss, |uss|) && fresh(Objects(states))
  {
    hmas, states := [], [];
    for i := 0 to |uss|
      invariant HaveStates(hmas, states) && AreWorkers(states, hashes, concurrency, filter, uss, i) && fresh(Objects(states))
    {
      hmas, states := RunOneMore(hashes, concurrency, filter, uss, i, hmas, states);
    }
  }

  /** The first n workers, which share nothing. */
  ghost predicate AreWorkers(states: seq<WorkerState>, hashes: Hashes, concurrency: nat, filter: string, uss: seq<seq<Update>>, n: nat)
    requires n <= |uss|
  {
    && |states| == n && CanMerge(states)
    && forall j :: 0 <= j < n ==> IsWorker(states[j], hashes, concurrency, filter, CountAll(uss[j], filter))
  }

  method RunOneMore(hashes: Hashes, concurrency: nat, filter: string, uss: seq<seq<Update>>, i: nat,
                    hmas0: seq<HitsMapAdaptive>, ghost states0: seq<WorkerState>)
    returns (hmas: seq<HitsMapAdaptive>, ghost states: seq<WorkerState>)
    requires concurrency > 0 && i < |uss|
    requires HaveStates(hmas0, states0) && AreWorkers(states0, hashes, concurrency, filter, uss, i)
    ensures HaveStates(hmas, states) && AreWorkers(states, hashes, concurrency, filter, uss, i + 1)
    ensures fresh(Objects(states) - Objects(states0))
  {
    var hma;
    ghost var state;
    hma, state := RunWorker(hashes, concurrency, filter, uss[i]);
    OneMoreWorker(hmas0, states0, hma, state);
    assert state.repr !! Objects(states0);
    OneMoreState(states0, state, hashes, concurrency, filter, uss, i);
    hmas, states := hmas0 + [hma], states0 + [state];
  }

  ghost predicate IsWorker(state: WorkerState, hashes: Hashes, concurrency: nat, filter: string, counts: Counts) {
    state.valid && state.hashes == hashes && state.concurrency == concurrency && state.filter == filter && state.counts == counts
  }

  lemma {:induction false} OneMoreWorker(hmas: seq<HitsMapAdaptive>, states: seq<WorkerState>, hma: HitsMapAdaptive, state: WorkerState)
    requires HaveStates(hmas, states) && HasState(hma, state)
    ensures HaveStates(hmas + [hma], states + [state])
  {
  }

  lemma {:induction false} OneMoreState(states: seq<WorkerState>, state: WorkerState, hashes: Hashes, concurrency: nat, filter: string,
                                        uss: seq<seq<Update>>, n: nat)
    requires n < |uss| && AreWorkers(states, hashes, concurrency, filter, uss, n) && state.repr !! Objects(states)
    requires IsWorker(state, hashes, concurrency, filter, CountAll(uss[n], filter))
    ensures AreWorkers(states + [state], hashes, concurrency, filter, uss, n + 1)
    ensures Objects(states + [state]) == Objects(states) + state.repr
  {
    forall j | 0 <= j < |states| ensures states[j].repr <= Objects(states) {
    }
    assert forall j :: 0 <= j < |states| ==> (states + [state])[j] == states[j];
    assert (states + [state])[|states|] == state;
    forall o | o in Objects(states + [state]) ensures o in Objects(states) + state.repr {
      var j :| 0 <= j < |states + [state]| && o in (states + [state])[j].repr;
    }
  }

  lemma {:induction false} AreTotals(states: seq<WorkerState>, uss: seq<seq<Update>>, filter: string, hashes: Hashes, concurrency: nat)
    requires AreWorkers(states, hashes, concurrency, filter, uss, |uss|)
    ensures SumAll(CountsOfStates(states)) == CountAll(Flatten(uss), filter)
  {
    SumOfWorkers(uss, filter);
    assert CountsOfStates(states) == seq(|uss|, i requires 0 <= i < |uss| => CountAll(uss[i], filter));
  }
}
