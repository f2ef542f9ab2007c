/** Applying a filter to a block: bits of rows that do not match are cleared. */
module BlockSearch {
  import opened Phrases
  import opened Tokens
  import opened Bitmaps
  import opened BloomFilters
  import opened HashTokenizers
  import opened Blocks
  import opened Filters

  /** A column of the block: strings with a bloom filter, or indexes into a dictionary. */
  datatype ColumnData =
    | Str(values: seq<string>, bloom: seq<Word>)
    | Dict(dict: seq<string>, idxs: seq<nat>)

  datatype BlockData = BlockData(rowsCount: nat, constColumns: map<string, string>, columns: map<string, ColumnData>)

  ghost predicate ValidColumn(hr: Hasher, c: ColumnData, rowsCount: nat) {
    match c
    case Str(values, bloom) => |values| == rowsCount && NoFalseNegatives(hr, bloom, values)
    case Dict(dict, idxs) => |idxs| == rowsCount && forall i :: 0 <= i < rowsCount ==> idxs[i] < |dict|
  }

  ghost predicate ValidBlock(hr: Hasher, b: BlockData) {
    forall name :: name in b.columns ==> ValidColumn(hr, b.columns[name], b.rowsCount)
  }

  function ColumnValue(c: ColumnData, i: nat): string {
    match c
    case Str(values, _) => if i < |values| then values[i] else ""
    case Dict(dict, idxs) => if i < |idxs| && idxs[i] < |dict| then dict[idxs[i]] else ""
  }

  function GetConstColumnValue(b: BlockData, name: string): string {
    if name in b.constColumns then b.constColumns[name] else ""
  }

  /** A const column with an empty value is the same as no const column. */
  function ValueAt(b: BlockData, i: nat, name: string): string {
    var v := GetConstColumnValue(b, name);
    if v != "" then v
    else if name in b.columns then ColumnValue(b.columns[name], i)
    else ""
  }

  /** The block stores these rows. */
  ghost predicate HoldsRows(b: BlockData, rows: seq<Fields>) {
    && |rows| == b.rowsCount
    && forall i, name :: 0 <= i < |rows| ==> GetFieldValueByName(rows[i], name) == ValueAt(b, i, name)
  }

  // ---------- Bloom filters ----------

  ghost predicate HasAllTokens(v: string, tokens: seq<string>) {
    forall k :: 0 <= k < |tokens| ==> IsTokenOf(v, tokens[k])
  }

  /** False only when no value has all the tokens. */
  method MatchBloomFilterAllTokens(hr: Hasher, bloom: seq<Word>, tokens: seq<string>, ghost values: seq<string>)
    returns (ok: bool)
    requires NoFalseNegatives(hr, bloom, values)
    ensures ok == ContainsHashes(bloom, TokensHashes(hr, tokens))
    ensures forall i :: 0 <= i < |values| && HasAllTokens(values[i], tokens) ==> ok
  {
    TokensOfValuePass(hr, bloom, values, tokens);
    if |tokens| == 0 {
      return true;
    }
    var hashes := AppendTokensHashes(hr, [], tokens);
    assert hashes == TokensHashes(hr, tokens);
    ok := ContainsAll(bloom, hashes);
  }

  lemma {:induction false} TokensOfValuePass(hr: Hasher, bloom: seq<Word>, values: seq<string>, tokens: seq<string>)
    requires NoFalseNegatives(hr, bloom, values)
    ensures forall i :: 0 <= i < |values| && HasAllTokens(values[i], tokens) ==> ContainsHashes(bloom, TokensHashes(hr, tokens))
  {
    forall i | 0 <= i < |values| && HasAllTokens(values[i], tokens) ensures ContainsHashes(bloom, TokensHashes(hr, tokens)) {
      TokensPass(hr, bloom, tokens);
    }
  }

  method MatchStringByAllTokens(v: string, tokens: seq<string>) returns (ok: bool)
    requires forall k :: 0 <= k < |tokens| ==> IsWord(tokens[k])
    ensures ok == HasAllTokens(v, tokens)
  {
    for k := 0 to |tokens|
      invariant forall i :: 0 <= i < k ==> IsTokenOf(v, tokens[i])
    {
      WordMatchesAsToken(v, tokens[k]);
      ok := MatchPhrase(v, tokens[k]);
      if !ok {
        return;
      }
    }
    return true;
  }

  /** The tokens may come from different values; so true does not mean that some value has them all. */
  method MatchDictValuesByAllTokens(dict: seq<string>, tokens: seq<string>) returns (ok: bool)
    requires forall k :: 0 <= k < |tokens| ==> IsWord(tokens[k])
    ensures ok == HasAllTokens(JoinValues(dict), tokens)
    ensures forall i :: 0 <= i < |dict| && HasAllTokens(dict[i], tokens) ==> ok
  {
    var v := "";
    for i := 0 to |dict|
      invariant v == JoinValues(dict[..i])
    {
      assert dict[..i + 1][..i] == dict[..i];
      v := v + dict[i];
      v := v + ",";
    }
    assert dict[..|dict|] == dict;
    ok := MatchStringByAllTokens(v, tokens);
    forall i | 0 <= i < |dict| && HasAllTokens(dict[i], tokens) ensures HasAllTokens(v, tokens) {
      forall k | 0 <= k < |tokens| ensures IsTokenOf(v, tokens[k]) {
        JoinedTokens(dict, i, tokens[k]);
      }
    }
  }

  /** What the check for one field looks at. */
  ghost predicate MayHave(hr: Hasher, b: BlockData, ft: FieldTokens) {
    var v := GetConstColumnValue(b, ft.field);
    if v != "" then HasAllTokens(v, ft.tokens)
    else ft.field in b.columns &&
         match b.columns[ft.field]
         case Dict(dict, _) => HasAllTokens(JoinValues(dict), ft.tokens)
         case Str(_, bloom) => ContainsHashes(bloom, TokensHashes(hr, ft.tokens))
  }

  /** Whether rows with all the tokens are possible. False only when there is none. */
  method MayHaveAllTokens(hr: Hasher, b: BlockData, ft: FieldTokens) returns (ok: bool)
    requires ValidBlock(hr, b) && ft.tokens != [] && forall k :: 0 <= k < |ft.tokens| ==> IsWord(ft.tokens[k])
    ensures ok == MayHave(hr, b, ft)
    ensures forall i :: 0 <= i < b.rowsCount && HasAllTokens(ValueAt(b, i, ft.field), ft.tokens) ==> ok
  {
    var v := GetConstColumnValue(b, ft.field);
    if v != "" {
      ok := MatchStringByAllTokens(v, ft.tokens);
      return;
    }
    if ft.field !in b.columns {
      NoTokensInEmpty(ft.tokens);
      return false;
    }
    var c := b.columns[ft.field];
    match c
    case Dict(dict, idxs) => ok := MatchDictValuesByAllTokens(dict, ft.tokens);
    case Str(values, bloom) => ok := MatchBloomFilterAllTokens(hr, bloom, ft.tokens, values);
  }

  lemma {:induction false} NoTokensInEmpty(tokens: seq<string>)
    requires tokens != []
    ensures !HasAllTokens("", tokens)
  {
    assert !IsTokenOf("", tokens[0]);
  }

  /** No row of the block that matches f lacks a token. */
  ghost predicate Needed(f: Filter, fts: seq<FieldTokens>, b: BlockData, rows: seq<Fields>) {
    forall i, k :: 0 <= i < |rows| && 0 <= k < |fts| && BlockKeeps(f, rows[i]) ==>
                     HasAllTokens(ValueAt(b, i, fts[k].field), fts[k].tokens)
  }

  lemma {:induction false} CollectedAreNeeded(f: Filter, fts: seq<FieldTokens>, b: BlockData, rows: seq<Fields>)
    requires Collected(f, fts) && HoldsRows(b, rows)
    ensures Needed(f, fts, b, rows)
    ensures forall k :: 0 <= k < |fts| ==> forall n :: 0 <= n < |fts[k].tokens| ==> IsWord(fts[k].tokens[n])
  {
    forall i, k | 0 <= i < |rows| && 0 <= k < |fts| && BlockKeeps(f, rows[i])
      ensures HasAllTokens(ValueAt(b, i, fts[k].field), fts[k].tokens)
    {
      forall n | 0 <= n < |fts[k].tokens| ensures IsTokenOf(ValueAt(b, i, fts[k].field), fts[k].tokens[n]) {
        assert HasFieldToken(fts, fts[k].field, fts[k].tokens[n]);
        FieldTokenNeeded(f, fts[k].field, fts[k].tokens[n], rows[i]);
      }
    }
    forall k, n | 0 <= k < |fts| && 0 <= n < |fts[k].tokens| ensures IsWord(fts[k].tokens[n]) {
      assert HasFieldToken(fts, fts[k].field, fts[k].tokens[n]);
      FieldTokenIsWord(f, fts[k].field, fts[k].tokens[n]);
    }
  }

  lemma {:induction false} FieldTokenIsWord(f: Filter, field: string, t: string)
    requires IsFieldToken(f, field, t)
    ensures IsWord(t)
    decreases f
  {
    match f
    case Generic(_, leaf) => LeafTokenIsWord(leaf, t);
    case And(filters) =>
      var i :| 0 <= i < |filters| && (filters[i].Generic? || filters[i].Or?) && IsFieldToken(filters[i], field, t);
      FieldTokenIsWord(filters[i], field, t);
    case Or(filters) => FieldTokenIsWord(filters[0], field, t);
  }

  lemma {:induction false} LeafTokenIsWord(leaf: Leaf, t: string)
    requires IsLeafToken(leaf, t)
    ensures IsWord(t)
  {
    match leaf
    case Phrase(phrase) => TokenIsWord(phrase, t);
    case Prefix(prefix) => TokenIsWord(SkipLastToken(prefix), t);
    case Substring(substring) => TokenIsWord(SkipLastToken(SkipFirstToken(substring)), t);
    case Exact(value) => TokenIsWord(value, t);
    case Sequence(phrases) =>
      var i :| 0 <= i < |phrases| && IsTokenOf(phrases[i], t);
      TokenIsWord(phrases[i], t);
  }

  /** A conjunction needs the tokens of every field. */
  method AndMatchBloomFilters(hr: Hasher, f: Filter, b: BlockData, ghost rows: seq<Fields>)
    returns (ok: bool, ghost fts: seq<FieldTokens>)
    requires ValidBlock(hr, b) && HoldsRows(b, rows) && f.And?
    ensures Collected(f, fts) && ok == forall k :: 0 <= k < |fts| ==> MayHave(hr, b, fts[k])
    ensures !ok ==> NoneMatches(f, rows)
  {
    var byFieldTokens := GetByFieldTokens(f);
    fts := byFieldTokens;
    CollectedAreNeeded(f, fts, b, rows);
    for k := 0 to |byFieldTokens|
      invariant forall i :: 0 <= i < k ==> MayHave(hr, b, fts[i])
    {
      ok := MayHaveAllTokens(hr, b, byFieldTokens[k]);
      if !ok {
        return;
      }
    }
    ok := true;
  }

  /** For a disjunction it is enough that the tokens of some field are possible. */
  method OrMatchBloomFilters(hr: Hasher, f: Filter, b: BlockData, ghost rows: seq<Fields>)
    returns (ok: bool, ghost fts: seq<FieldTokens>)
    requires ValidBlock(hr, b) && HoldsRows(b, rows) && f.Or?
    ensures Collected(f, fts) && ok == (fts == [] || exists k :: 0 <= k < |fts| && MayHave(hr, b, fts[k]))
    ensures !ok ==> NoneMatches(f, rows)
  {
    var byFieldTokens := GetByFieldTokens(f);
    fts := byFieldTokens;
    CollectedAreNeeded(f, fts, b, rows);
    if |byFieldTokens| == 0 {
      return true, fts;
    }
    for k := 0 to |byFieldTokens|
      invariant forall i :: 0 <= i < k ==> !MayHave(hr, b, fts[i])
      invariant k > 0 ==> NoneMatches(f, rows)
    {
      ok := MayHaveAllTokens(hr, b, byFieldTokens[k]);
      if ok {
        return;
      }
    }
    ok := false;
  }

  ghost predicate NoneMatches(f: Filter, rows: seq<Fields>) {
    forall i :: 0 <= i < |rows| ==> !BlockKeeps(f, rows[i])
  }

  // ---------- One field ----------

  /** The rows of `before` whose values match. */
  ghost predicate Filtered(after: set<nat>, before: set<nat>, b: BlockData, field: string, leaf: Leaf) {
    forall i :: i in after <==> i in before && LeafMatches(leaf, ValueAt(b, i, field))
  }

  /** Keeps the rows whose flags are set. */
  method VisitValues(bm: Bitmap, leaf: Leaf, values: seq<string>)
    requires bm.Valid() && bm.bitsLen == |values|
    modifies bm`a
    ensures bm.Valid()
    ensures forall i :: i in bm.Contents() <==> i in old(bm.Contents()) && i < |values| && LeafMatches(leaf, values[i])
  {
    var zero := bm.IsZero();
    if zero {
      return;
    }
    var flags := [];
    for i := 0 to |values|
      invariant |flags| == i && bm.Valid() && bm.Contents() == old(bm.Contents())
      invariant forall k: nat :: k < i && k in bm.Contents() ==> flags[k] == LeafMatches(leaf, values[k])
    {
      var visited := bm.IsSetBit(i);
      var ok := false;
      if visited {
        ok := MatchLeaf(leaf, values[i]);
      }
      flags := flags + [ok];
    }
    bm.ForEachSetBit((i: nat) => i < |flags| && flags[i]);
  }

  /** Dictionary values are matched once each. */
  method MatchDictValues(bm: Bitmap, leaf: Leaf, dict: seq<string>, idxs: seq<nat>)
    requires bm.Valid() && bm.bitsLen == |idxs| && forall i :: 0 <= i < |idxs| ==> idxs[i] < |dict|
    modifies bm`a
    ensures bm.Valid()
    ensures forall i :: i in bm.Contents() <==> i in old(bm.Contents()) && i < |idxs| && LeafMatches(leaf, dict[idxs[i]])
  {
    var encoded, found := MatchDict(leaf, dict);
    if !found {
      bm.ResetBits();
      return;
    }
    bm.ForEachSetBit((i: nat) => i < |idxs| && idxs[i] < |encoded| && encoded[idxs[i]]);
  }

  method MatchDict(leaf: Leaf, dict: seq<string>) returns (encoded: seq<bool>, found: bool)
    ensures |encoded| == |dict| && forall k :: 0 <= k < |dict| ==> encoded[k] == LeafMatches(leaf, dict[k])
    ensures found == exists k :: 0 <= k < |dict| && encoded[k]
  {
    encoded, found := [], false;
    for k := 0 to |dict|
      invariant |encoded| == k && forall n :: 0 <= n < k ==> encoded[n] == LeafMatches(leaf, dict[n])
      invariant found == exists n :: 0 <= n < k && encoded[n]
    {
      var ok := MatchLeaf(leaf, dict[k]);
      encoded := encoded + [ok];
      found := found || ok;
    }
  }

  /** A column that is missing has an empty value in every row. */
  method MatchesMissing(leaf: Leaf) returns (keep: bool)
    requires NoEmptyPhrase(leaf)
    ensures keep == LeafMatches(leaf, "")
  {
    match leaf
    case Phrase(phrase) =>
      keep := |phrase| == 0;
      assert phrase != "" ==> forall pos :: !PhraseAt("", phrase, pos);
    case Prefix(prefix) =>
      keep := false;
      assert prefix != "" ==> forall pos :: !PrefixAt("", prefix, pos);
    case Substring(substring) =>
      keep := |substring| == 0;
      assert substring == "" ==> OccursAt("", substring, 0);
    case Exact(value) => keep := value == "";
    case Sequence(_) => keep := MatchLeaf(leaf, "");
    case In(values) => keep := "" in values;
    case ContainsAny(_) => keep := MatchLeaf(leaf, "");
  }

  /** The checks a filter makes before it looks at the column: none of the rows match, or all of
      them, or it depends on the column. */
  datatype Shortcut = KeepNone | KeepAll | LookAtColumn

  method TryShortcut(leaf: Leaf) returns (shortcut: Shortcut)
    ensures shortcut == KeepNone ==> forall v :: !LeafMatches(leaf, v)
    ensures shortcut == KeepAll && NoEmptyPhrase(leaf) ==> forall v :: LeafMatches(leaf, v)
    ensures shortcut == KeepAll <==>
              (leaf.Sequence? && forall i :: 0 <= i < |leaf.phrases| ==> leaf.phrases[i] == "") || (leaf.ContainsAny? && "" in leaf.phrases)
  {
    shortcut := LookAtColumn;
    match leaf
    case Sequence(phrases) =>
      var nonEmpty := GetNonEmptyPhrases(phrases);
      NonEmptyElements(phrases);
      assert |nonEmpty| > 0 ==> nonEmpty[0] in phrases;
      if |nonEmpty| == 0 {
        assert forall i :: 0 <= i < |phrases| ==> phrases[i] in phrases;
        forall v ensures SequenceMatches(v, phrases) {
          assert ArePlaces(v, phrases, seq(|phrases|, _ => 0));
        }
        return KeepAll;
      }
    case In(values) =>
      if |values| == 0 {
        return KeepNone;
      }
    case ContainsAny(phrases) =>
      if |phrases| == 0 {
        return KeepNone;
      }
      if "" in phrases {
        return KeepAll;
      }
    case _ =>
  }

  /** Clears the bits of the rows whose value of the field does not match. */
  method ApplyToBlockSearchByField(hr: Hasher, leaf: Leaf, b: BlockData, bm: Bitmap, field: string)
    requires ValidBlock(hr, b) && bm.Valid() && bm.bitsLen == b.rowsCount
    modifies bm`a
    ensures bm.Valid()
    ensures if NoEmptyPhrase(leaf) then Filtered(bm.Contents(), old(bm.Contents()), b, field, leaf)
            else bm.Contents() == old(bm.Contents())
  {
    var shortcut := TryShortcut(leaf);
    if shortcut == KeepAll {
      return;
    }
    if shortcut == KeepNone {
      bm.ResetBits();
      return;
    }
    var v := GetConstColumnValue(b, field);
    if v != "" {
      var keep := MatchLeaf(leaf, v);
      if !keep {
        bm.ResetBits();
      }
      return;
    }
    if field !in b.columns {
      var keep := MatchesMissing(leaf);
      if !keep {
        bm.ResetBits();
      }
      return;
    }
    var c := b.columns[field];
    assert ValidColumn(hr, c, b.rowsCount);
    match c
    case Dict(dict, idxs) => MatchDictValues(bm, leaf, dict, idxs);
    case Str(values, bloom) => MatchStrings(hr, leaf, values, bloom, bm);
  }

  /** contains_any() agrees with the row on every block exactly when no phrase is empty: otherwise here
      is a block of one row that does not match but is kept. */
  lemma {:induction false} EmptyPhraseKeepsTooMuch(hr: Hasher, phrases: seq<string>, field: string) returns (b: BlockData)
    requires "" in phrases
    ensures b.rowsCount == 1 && ValidBlock(hr, b) && !Filtered({0}, {0}, b, field, ContainsAny(phrases))
  {
    var v := UnmatchedValue(phrases);
    b := BlockData(1, map[field := v], map[]);
    assert ValueAt(b, 0, field) == v;
  }

  /** A long word that no phrase matches. */
  lemma {:induction false} UnmatchedValue(phrases: seq<string>) returns (v: string)
    ensures v != "" && !LeafMatches(ContainsAny(phrases), v)
  {
    var n := LongestLen(phrases) + 1;
    v := seq(n, _ => 'a');
    forall i | 0 <= i < |phrases| ensures !PhraseMatches(v, phrases[i]) {
      ShorterThanLongest(phrases, i);
      if phrases[i] != "" {
        forall pos ensures !PhraseAt(v, phrases[i], pos) {
          NotInLongWord(v, phrases[i], pos);
        }
      }
    }
  }

  lemma {:induction false} NotInLongWord(v: string, phrase: string, pos: int)
    requires phrase != "" && |phrase| < |v| && forall k :: 0 <= k < |v| ==> v[k] == 'a'
    ensures !PhraseAt(v, phrase, pos)
  {
    if OccursAt(v, phrase, pos) {
      assert phrase[0] == v[pos] && phrase[|phrase| - 1] == v[pos + |phrase| - 1];
    }
  }

  ghost function LongestLen(phrases: seq<string>): nat {
    if phrases == [] then 0
    else
      var rest := LongestLen(phrases[..|phrases| - 1]);
      if |phrases[|phrases| - 1]| > rest then |phrases[|phrases| - 1]| else rest
  }

  lemma {:induction false} ShorterThanLongest(phrases: seq<string>, i: nat)
    requires i < |phrases|
    ensures |phrases[i]| <= LongestLen(phrases)
  {
    if i < |phrases| - 1 {
      ShorterThanLongest(phrases[..|phrases| - 1], i);
    }
  }

  /** Looks at the bloom filter first. */
  method MatchStrings(hr: Hasher, leaf: Leaf, values: seq<string>, bloom: seq<Word>, bm: Bitmap)
    requires NoFalseNegatives(hr, bloom, values) && NoEmptyPhrase(leaf) && bm.Valid() && bm.bitsLen == |values|
    modifies bm`a
    ensures bm.Valid()
    ensures forall i :: i in bm.Contents() <==> i in old(bm.Contents()) && i < |values| && LeafMatches(leaf, values[i])
  {
    match leaf
    case In(inValues) => MatchAnyValue(hr, inValues, values, bloom, bm);
    case ContainsAny(phrases) => MatchAnyPhraseString(hr, phrases, values, bloom, bm);
    case _ =>
      var tokens := GetLeafTokens(leaf);
      var ok := MatchBloomFilterAllTokens(hr, bloom, tokens, values);
      if !ok {
        forall i | 0 <= i < |values| ensures !LeafMatches(leaf, values[i]) {
          LeafTokensNeeded(leaf, values[i], tokens);
        }
        bm.ResetBits();
        return;
      }
      VisitValues(bm, leaf, values);
  }

  lemma {:induction false} LeafTokensNeeded(leaf: Leaf, v: string, tokens: seq<string>)
    requires forall t :: t in tokens ==> IsLeafToken(leaf, t)
    ensures LeafMatches(leaf, v) ==> HasAllTokens(v, tokens)
  {
    if LeafMatches(leaf, v) {
      forall k | 0 <= k < |tokens| ensures IsTokenOf(v, tokens[k]) {
        LeafTokenNeeded(leaf, v, tokens[k]);
      }
    }
  }

  // ---------- Lists of values ----------

  /** Together, the common tokens and the tokens of set i are the tokens of value i. */
  ghost predicate Split(values: seq<string>, commonTokens: seq<string>, tokenSets: seq<seq<string>>) {
    && |tokenSets| == |values|
    && forall i, t :: 0 <= i < |values| ==> (t in commonTokens || t in tokenSets[i] <==> IsTokenOf(values[i], t))
  }

  method GetCommonTokensAndTokenSets(values: seq<string>) returns (commonTokens: seq<string>, tokenSets: seq<seq<string>>)
    requires values != []
    ensures Split(values, commonTokens, tokenSets)
    ensures forall t :: t in commonTokens <==> forall i :: 0 <= i < |values| ==> IsTokenOf(values[i], t)
    ensures commonTokens != [] ==> forall i, t :: 0 <= i < |values| && t in tokenSets[i] ==> t !in commonTokens
  {
    tokenSets := [];
    for i := 0 to |values|
      invariant |tokenSets| == i
      invariant forall k :: 0 <= k < i ==> forall t :: t in tokenSets[k] <==> IsTokenOf(values[k], t)
    {
      var tokens := TokenizeString(values[i]);
      tokenSets := tokenSets + [tokens];
    }
    commonTokens := GetCommonTokens(tokenSets);
    assert forall t :: t in commonTokens ==> InFirst(tokenSets, |tokenSets|, t);
    if |commonTokens| == 0 {
      return;
    }
    ghost var all := tokenSets;
    for i := 0 to |tokenSets|
      invariant |tokenSets| == |values|
      invariant forall k :: i <= k < |values| ==> tokenSets[k] == all[k]
      invariant forall k :: 0 <= k < i ==> forall t :: t in tokenSets[k] <==> t in all[k] && t !in commonTokens
    {
      var dstTokens := DropCommon(tokenSets[i], commonTokens);
      tokenSets := tokenSets[i := dstTokens];
    }
  }

  method DropCommon(tokens: seq<string>, commonTokens: seq<string>) returns (dst: seq<string>)
    ensures forall t :: t in dst <==> t in tokens && t !in commonTokens
  {
    dst := [];
    for i := 0 to |tokens|
      invariant forall t :: t in dst <==> t in tokens[..i] && t !in commonTokens
    {
      assert tokens[..i + 1] == tokens[..i] + [tokens[i]];
      if tokens[i] !in commonTokens {
        dst := dst + [tokens[i]];
      }
    }
    assert tokens[..|tokens|] == tokens;
  }

  const MAX_TOKEN_SETS: nat := 1000

  ghost predicate MayHaveSet(hr: Hasher, bloom: seq<Word>, tokenSets: seq<seq<string>>, k: nat)
    requires k < |tokenSets|
  {
    ContainsHashes(bloom, TokensHashes(hr, tokenSets[k]))
  }

  /** Looks for one of the sets besides the common tokens, unless there are too many of them. False only when the
      values have all the tokens of none of the searched ones. */
  method MatchBloomFilterAnyTokenSet(hr: Hasher, bloom: seq<Word>, commonTokens: seq<string>,
                                     tokenSets: seq<seq<string>>, rowsCount: nat, ghost values: seq<string>)
    returns (ok: bool)
    requires NoFalseNegatives(hr, bloom, values)
    ensures ok == (ContainsHashes(bloom, TokensHashes(hr, commonTokens)) &&
                   (|tokenSets| > 1000 || |tokenSets| > 10 * rowsCount || exists k :: 0 <= k < |tokenSets| && MayHaveSet(hr, bloom, tokenSets, k)))
    ensures !ok ==> forall i, k :: 0 <= i < |values| && 0 <= k < |tokenSets| ==>
                                     !(HasAllTokens(values[i], commonTokens) && HasAllTokens(values[i], tokenSets[k]))
  {
    ok := MatchBloomFilterAllTokens(hr, bloom, commonTokens, values);
    if !ok {
      return;
    }
    if |tokenSets| > MAX_TOKEN_SETS || |tokenSets| > 10 * rowsCount {
      return true;
    }
    for k := 0 to |tokenSets|
      invariant forall n, i :: 0 <= n < k && 0 <= i < |values| ==> !HasAllTokens(values[i], tokenSets[n])
      invariant forall n :: 0 <= n < k ==> !MayHaveSet(hr, bloom, tokenSets, n)
    {
      ok := MatchBloomFilterAllTokens(hr, bloom, tokenSets[k], values);
      assert ok == MayHaveSet(hr, bloom, tokenSets, k);
      if ok {
        return;
      }
    }
    ok := false;
  }

  lemma {:induction false} TokensOfEqual(values: seq<string>, commonTokens: seq<string>, tokenSets: seq<seq<string>>, k: nat)
    requires Split(values, commonTokens, tokenSets) && k < |values|
    ensures HasAllTokens(values[k], commonTokens) && HasAllTokens(values[k], tokenSets[k])
  {
    assert forall t :: t in commonTokens || t in tokenSets[k] ==> IsTokenOf(values[k], t);
  }

  /** in(): a value that is searched for has its own tokens. */
  method MatchAnyValue(hr: Hasher, inValues: seq<string>, values: seq<string>, bloom: seq<Word>, bm: Bitmap)
    requires NoFalseNegatives(hr, bloom, values) && bm.Valid() && bm.bitsLen == |values|
    modifies bm`a
    ensures bm.Valid()
    ensures forall i :: i in bm.Contents() <==> i in old(bm.Contents()) && i < |values| && values[i] in inValues
  {
    if |inValues| == 0 {
      bm.ResetBits();
      return;
    }
    var commonTokens, tokenSets := GetCommonTokensAndTokenSets(inValues);
    var ok := MatchBloomFilterAnyTokenSet(hr, bloom, commonTokens, tokenSets, |values|, values);
    if !ok {
      forall i | 0 <= i < |values| ensures values[i] !in inValues {
        if k :| 0 <= k < |inValues| && inValues[k] == values[i] {
          TokensOfEqual(inValues, commonTokens, tokenSets, k);
        }
      }
      bm.ResetBits();
      return;
    }
    VisitValues(bm, In(inValues), values);
  }

  /** A matching value has all the tokens of the phrase. */
  lemma {:induction false} TokensOfPhrase(phrases: seq<string>, commonTokens: seq<string>, tokenSets: seq<seq<string>>, k: nat, v: string)
    requires Split(phrases, commonTokens, tokenSets) && k < |phrases| && phrases[k] != "" && PhraseMatches(v, phrases[k])
    ensures HasAllTokens(v, commonTokens) && HasAllTokens(v, tokenSets[k])
  {
    var pos :| PhraseAt(v, phrases[k], pos);
    forall t | t in commonTokens || t in tokenSets[k] ensures IsTokenOf(v, t) {
      PhraseTokens(v, phrases[k], pos, t);
    }
  }

  /** contains_any(): only the phrases that may occur in the column are looked for. */
  method MatchAnyPhraseString(hr: Hasher, phrases: seq<string>, values: seq<string>, bloom: seq<Word>, bm: Bitmap)
    requires NoFalseNegatives(hr, bloom, values) && "" !in phrases && bm.Valid() && bm.bitsLen == |values|
    modifies bm`a
    ensures bm.Valid()
    ensures forall i :: i in bm.Contents() <==>
              i in old(bm.Contents()) && i < |values| && LeafMatches(ContainsAny(phrases), values[i])
  {
    if |phrases| == 0 {
      bm.ResetBits();
      return;
    }
    var commonTokens, tokenSets := GetCommonTokensAndTokenSets(phrases);
    var ok := MatchBloomFilterAllTokens(hr, bloom, commonTokens, values);
    if !ok {
      forall i | 0 <= i < |values| ensures !LeafMatches(ContainsAny(phrases), values[i]) {
        if k :| 0 <= k < |phrases| && PhraseMatches(values[i], phrases[k]) {
          TokensOfPhrase(phrases, commonTokens, tokenSets, k, values[i]);
        }
      }
      bm.ResetBits();
      return;
    }
    MatchValuesAnyPhrase(hr, phrases, commonTokens, tokenSets, values, bloom, bm);
  }

  method MatchValuesAnyPhrase(hr: Hasher, phrases: seq<string>, ghost commonTokens: seq<string>,
                              tokenSets: seq<seq<string>>, values: seq<string>, bloom: seq<Word>, bm: Bitmap)
    requires NoFalseNegatives(hr, bloom, values) && "" !in phrases && bm.Valid() && bm.bitsLen == |values|
    requires Split(phrases, commonTokens, tokenSets)
    modifies bm`a
    ensures bm.Valid()
    ensures forall i :: i in bm.Contents() <==>
              i in old(bm.Contents()) && i < |values| && LeafMatches(ContainsAny(phrases), values[i])
  {
    var possible := PossiblePhrases(hr, phrases, commonTokens, tokenSets, values, bloom);
    if |possible| > 0 {
      VisitValues(bm, ContainsAny(possible), values);
    } else {
      bm.ResetBits();
    }
  }

  method PossiblePhrases(hr: Hasher, phrases: seq<string>, ghost commonTokens: seq<string>,
                         tokenSets: seq<seq<string>>, ghost values: seq<string>, bloom: seq<Word>)
    returns (possible: seq<string>)
    requires NoFalseNegatives(hr, bloom, values) && "" !in phrases && Split(phrases, commonTokens, tokenSets)
    ensures forall i :: 0 <= i < |values| ==>
              (LeafMatches(ContainsAny(possible), values[i]) <==> LeafMatches(ContainsAny(phrases), values[i]))
    ensures forall p :: p in possible <==> exists k :: 0 <= k < |phrases| && phrases[k] == p && MayHaveSet(hr, bloom, tokenSets, k)
  {
    possible := [];
    for k := 0 to |phrases|
      invariant forall p :: p in possible <==> exists n :: 0 <= n < k && phrases[n] == p && MayHaveSet(hr, bloom, tokenSets, n)
      invariant forall i, n :: 0 <= i < |values| && 0 <= n < k && PhraseMatches(values[i], phrases[n]) ==>
                                 phrases[n] in possible
    {
      var ok := MatchBloomFilterAllTokens(hr, bloom, tokenSets[k], values);
      assert ok == MayHaveSet(hr, bloom, tokenSets, k);
      if ok {
        possible := possible + [phrases[k]];
      } else {
        forall i | 0 <= i < |values| ensures !PhraseMatches(values[i], phrases[k]) {
          if PhraseMatches(values[i], phrases[k]) {
            TokensOfPhrase(phrases, commonTokens, tokenSets, k, values[i]);
          }
        }
      }
    }
    forall i | 0 <= i < |values|
      ensures LeafMatches(ContainsAny(possible), values[i]) <==> LeafMatches(ContainsAny(phrases), values[i])
    {
      if n :| 0 <= n < |possible| && PhraseMatches(values[i], possible[n]) {
        assert possible[n] in possible;
        var k :| 0 <= k < |phrases| && phrases[k] == possible[n] && MayHaveSet(hr, bloom, tokenSets, k);
      }
      if n :| 0 <= n < |phrases| && PhraseMatches(values[i], phrases[n]) {
        assert phrases[n] in possible;
      }
    }
  }

  // ---------- Filter trees ----------

  /** The rows of `before` that f keeps. */
  ghost predicate Refined(after: set<nat>, before: set<nat>, f: Filter, rows: seq<Fields>) {
    forall i :: i in after <==> i in before && i < |rows| && BlockKeeps(f, rows[i])
  }

  /** For any filter, block and set of rows, exactly the rows stay that blocks keep; these are the
      matching rows when no contains_any() has an empty phrase. */
  method ApplyToBlockSearch(hr: Hasher, f: Filter, b: BlockData, bm: Bitmap, ghost rows: seq<Fields>)
    requires ValidBlock(hr, b) && HoldsRows(b, rows) && bm.Valid() && bm.bitsLen == b.rowsCount
    modifies bm`a
    ensures bm.Valid() && Refined(bm.Contents(), old(bm.Contents()), f, rows)
    ensures NoEmptyPhrases(f) ==>
              forall i :: i in bm.Contents() <==> i in old(bm.Contents()) && i < |rows| && MatchesRow(f, rows[i])
    decreases f, 1
  {
    if NoEmptyPhrases(f) {
      forall i | 0 <= i < |rows| ensures BlockKeeps(f, rows[i]) <==> MatchesRow(f, rows[i]) {
        BlocksKeepMatches(f, rows[i]);
      }
    }
    match f
    case Generic(field, leaf) => ApplyToBlockSearchByField(hr, leaf, b, bm, field);
    case And(filters) => ApplyAnd(hr, f, filters, b, bm, rows);
    case Or(filters) => ApplyOr(hr, f, filters, b, bm, rows);
    case Not(g) =>
      var bmTmp := new Bitmap(bm.bitsLen);
      bmTmp.CopyFrom(bm);
      ApplyToBlockSearch(hr, g, b, bmTmp, rows);
      bm.AndNot(bmTmp);
  }

  method ApplyAnd(hr: Hasher, f: Filter, filters: seq<Filter>, b: BlockData, bm: Bitmap, ghost rows: seq<Fields>)
    requires f == And(filters)
    requires ValidBlock(hr, b) && HoldsRows(b, rows) && bm.Valid() && bm.bitsLen == b.rowsCount
    modifies bm`a
    ensures bm.Valid() && Refined(bm.Contents(), old(bm.Contents()), f, rows)
    decreases f, 0
  {
    ghost var before, fts := bm.Contents(), [];
    var ok;
    ok, fts := AndMatchBloomFilters(hr, f, b, rows);
    if !ok {
      bm.ResetBits();
      return;
    }
    for k := 0 to |filters|
      invariant bm.Valid()
      invariant forall i :: i in bm.Contents() <==>
                  i in before && i < |rows| && forall n :: 0 <= n < k ==> BlockKeeps(filters[n], rows[i])
    {
      ApplyToBlockSearch(hr, filters[k], b, bm, rows);
      var zero := bm.IsZero();
      if zero {
        return;
      }
    }
  }

  method ApplyOr(hr: Hasher, f: Filter, filters: seq<Filter>, b: BlockData, bm: Bitmap, ghost rows: seq<Fields>)
    requires f == Or(filters)
    requires ValidBlock(hr, b) && HoldsRows(b, rows) && bm.Valid() && bm.bitsLen == b.rowsCount
    modifies bm`a
    ensures bm.Valid() && Refined(bm.Contents(), old(bm.Contents()), f, rows)
    decreases f, 0
  {
    ghost var before, fts := bm.Contents(), [];
    var ok;
    ok, fts := OrMatchBloomFilters(hr, f, b, rows);
    if !ok {
      bm.ResetBits();
      return;
    }
    var bmResult := new Bitmap(bm.bitsLen);
    var bmTmp := new Bitmap(bm.bitsLen);
    bmResult.CopyFrom(bm);
    for k := 0 to |filters|
      invariant fresh(bmResult) && fresh(bmTmp) && bmResult != bmTmp
      invariant bm.Valid() && bmResult.Valid()
      invariant bm.bitsLen == bmResult.bitsLen == b.rowsCount && bm.Contents() == before
      invariant Unmatched(bmResult.Contents(), before, filters, k, rows)
    {
      bmTmp.CopyFrom(bmResult);
      ApplyToBlockSearch(hr, filters[k], b, bmTmp, rows);
      ghost var rest := bmResult.Contents();
      bmResult.AndNot(bmTmp);
      OneMoreAlternative(bmResult.Contents(), rest, bmTmp.Contents(), before, filters, k, rows);
      var zero := bmResult.IsZero();
      if zero {
        AllMatched(before, filters, k + 1, rows);
        return;
      }
    }
    bm.AndNot(bmResult);
  }

  /** The rows that none of the first k alternatives matches. */
  ghost predicate Unmatched(rest: set<nat>, before: set<nat>, filters: seq<Filter>, k: nat, rows: seq<Fields>)
    requires k <= |filters|
  {
    && (forall i :: i in before ==> i < |rows|)
    && forall i :: i in rest <==> i in before && i < |rows| && forall n :: 0 <= n < k ==> !BlockKeeps(filters[n], rows[i])
  }

  lemma {:induction false} OneMoreAlternative(rest': set<nat>, rest: set<nat>, matched: set<nat>, before: set<nat>,
                           filters: seq<Filter>, k: nat, rows: seq<Fields>)
    requires k < |filters| && Unmatched(rest, before, filters, k, rows) && rest' == rest - matched
    requires Refined(matched, rest, filters[k], rows)
    ensures Unmatched(rest', before, filters, k + 1, rows)
  {
  }

  lemma {:induction false} AllMatched(before: set<nat>, filters: seq<Filter>, k: nat, rows: seq<Fields>)
    requires k <= |filters| && Unmatched({}, before, filters, k, rows)
    ensures Refined(before, before, Or(filters), rows)
  {
    forall i | i in before ensures BlockKeeps(Or(filters), rows[i]) {
      var n :| 0 <= n < k && BlockKeeps(filters[n], rows[i]);
    }
  }
}
