/** Filters over rows, and what they need of the columns of a block. */
module Filters {
  import opened Phrases
  import opened Tokens
  import opened LogEntries
  import opened Blocks

  datatype Leaf =
    | Phrase(phrase: string)
    | Prefix(prefix: string)
    | Substring(substring: string)
    | Exact(value: string)
    | Sequence(phrases: seq<string>)
    | In(values: seq<string>)
    | ContainsAny(phrases: seq<string>)

  datatype Filter =
    | Generic(field: string, leaf: Leaf)
    | And(filters: seq<Filter>)
    | Or(filters: seq<Filter>)
    | Not(f: Filter)

  // ---------- Rows ----------

  ghost predicate LeafMatches(leaf: Leaf, v: string) {
    match leaf
    case Phrase(phrase) => PhraseMatches(v, phrase)
    case Prefix(prefix) => PrefixMatches(v, prefix)
    case Substring(substring) => SubstringMatches(v, substring)
    case Exact(value) => v == value
    case Sequence(phrases) => SequenceMatches(v, phrases)
    case In(values) => v in values
    case ContainsAny(phrases) => exists i :: 0 <= i < |phrases| && PhraseMatches(v, phrases[i])
  }

  ghost predicate MatchesRow(f: Filter, fields: Fields) {
    match f
    case Generic(field, leaf) => LeafMatches(leaf, GetFieldValueByName(fields, field))
    case And(filters) => forall i :: 0 <= i < |filters| ==> MatchesRow(filters[i], fields)
    case Or(filters) => exists i :: 0 <= i < |filters| && MatchesRow(filters[i], fields)
    case Not(g) => !MatchesRow(g, fields)
  }

  /** An empty phrase in contains_any() makes a block keep all rows, while a row with a value does not
      match it. */
  ghost predicate NoEmptyPhrase(leaf: Leaf) {
    leaf.ContainsAny? ==> "" !in leaf.phrases
  }

  /** What blocks keep of the rows. */
  ghost predicate BlockKeeps(f: Filter, fields: Fields) {
    match f
    case Generic(field, leaf) => !NoEmptyPhrase(leaf) || LeafMatches(leaf, GetFieldValueByName(fields, field))
    case And(filters) => forall i :: 0 <= i < |filters| ==> BlockKeeps(filters[i], fields)
    case Or(filters) => exists i :: 0 <= i < |filters| && BlockKeeps(filters[i], fields)
    case Not(g) => !BlockKeeps(g, fields)
  }

  ghost predicate NoEmptyPhrases(f: Filter) {
    match f
    case Generic(_, leaf) => NoEmptyPhrase(leaf)
    case And(filters) => forall i :: 0 <= i < |filters| ==> NoEmptyPhrases(filters[i])
    case Or(filters) => forall i :: 0 <= i < |filters| ==> NoEmptyPhrases(filters[i])
    case Not(g) => NoEmptyPhrases(g)
  }

  /** Without empty phrases blocks keep the rows that match. */
  lemma {:induction false} BlocksKeepMatches(f: Filter, fields: Fields)
    requires NoEmptyPhrases(f)
    ensures BlockKeeps(f, fields) <==> MatchesRow(f, fields)
  {
    match f
    case Generic(_, _) =>
    case And(filters) =>
      forall i | 0 <= i < |filters| ensures BlockKeeps(filters[i], fields) <==> MatchesRow(filters[i], fields) {
        BlocksKeepMatches(filters[i], fields);
      }
    case Or(filters) =>
      forall i | 0 <= i < |filters| ensures BlockKeeps(filters[i], fields) <==> MatchesRow(filters[i], fields) {
        BlocksKeepMatches(filters[i], fields);
      }
    case Not(g) => BlocksKeepMatches(g, fields);
  }

  // ---------- Empty phrases of a sequence ----------

  function NonEmptyPhrases(phrases: seq<string>): (rest: seq<string>)
    ensures NonEmpty(rest)
  {
    if phrases == [] then []
    else
      var rest := NonEmptyPhrases(phrases[..|phrases| - 1]);
      if phrases[|phrases| - 1] == "" then rest else rest + [phrases[|phrases| - 1]]
  }

  lemma {:induction false} NonEmptyElements(phrases: seq<string>)
    ensures forall p :: p in NonEmptyPhrases(phrases) <==> p in phrases && p != ""
  {
    if phrases != [] {
      NonEmptyElements(phrases[..|phrases| - 1]);
      assert phrases == phrases[..|phrases| - 1] + [phrases[|phrases| - 1]];
    }
  }

  ghost predicate EndBy(phrases: seq<string>, places: seq<int>, end: int) {
    |places| == |phrases| && forall i :: 0 <= i < |phrases| && phrases[i] != "" ==> places[i] + |phrases[i]| <= end
  }

  lemma {:induction false} PlacesOfNonEmpty(s: string, phrases: seq<string>, places: seq<int>) returns (rest: seq<int>)
    requires ArePlaces(s, phrases, places)
    ensures ArePlaces(s, NonEmptyPhrases(phrases), rest)
    ensures forall end :: EndBy(phrases, places, end) ==> EndBy(NonEmptyPhrases(phrases), rest, end)
  {
    rest := [];
    if phrases != [] {
      var n := |phrases| - 1;
      rest := PlacesOfNonEmpty(s, phrases[..n], places[..n]);
      assert forall end :: EndBy(phrases, places, end) ==> EndBy(phrases[..n], places[..n], end);
      if phrases[n] != "" {
        assert EndBy(phrases[..n], places[..n], places[n]);
        rest := rest + [places[n]];
      }
    }
  }

  lemma {:induction false} LastPlace(s: string, phrases: seq<string>, phrase: string, places: seq<int>)
    requires NonEmpty(phrases) && phrase != "" && ArePlaces(s, phrases + [phrase], places)
    ensures var last := |places| - 1;
            && ArePlaces(s, phrases, places[..last]) && EndBy(phrases, places[..last], places[last])
            && PhraseAt(s, phrase, places[last])
            && forall end :: EndBy(phrases + [phrase], places, end) ==>
                               EndBy(phrases, places[..last], end) && places[last] + |phrase| <= end
  {
    assert (phrases + [phrase])[|phrases|] == phrase;
    assert forall i :: 0 <= i < |phrases| ==> (phrases + [phrase])[i] == phrases[i];
  }

  lemma {:induction false} PlacesWithEmpty(s: string, phrases: seq<string>, rest: seq<int>) returns (places: seq<int>)
    requires ArePlaces(s, NonEmptyPhrases(phrases), rest)
    ensures ArePlaces(s, phrases, places)
    ensures forall end :: EndBy(NonEmptyPhrases(phrases), rest, end) ==> EndBy(phrases, places, end)
  {
    places := [];
    if phrases != [] {
      var n, last := |phrases| - 1, |rest| - 1;
      if phrases[n] == "" {
        places := PlacesWithEmpty(s, phrases[..n], rest);
        places := places + [0];
      } else {
        LastPlace(s, NonEmptyPhrases(phrases[..n]), phrases[n], rest);
        places := PlacesWithEmpty(s, phrases[..n], rest[..last]);
        assert EndBy(phrases[..n], places, rest[last]);
        places := places + [rest[last]];
      }
    }
  }

  /** Empty phrases make no difference. */
  lemma {:induction false} EmptyPhrasesAreSkipped(v: string, phrases: seq<string>)
    ensures SequenceMatches(v, NonEmptyPhrases(phrases)) <==> SequenceMatches(v, phrases)
  {
    if SequenceMatches(v, phrases) {
      var places :| ArePlaces(v, phrases, places);
      var _ := PlacesOfNonEmpty(v, phrases, places);
    }
    if SequenceMatches(v, NonEmptyPhrases(phrases)) {
      var rest :| ArePlaces(v, NonEmptyPhrases(phrases), rest);
      var _ := PlacesWithEmpty(v, phrases, rest);
    }
  }

  method GetNonEmptyPhrases(phrases: seq<string>) returns (result: seq<string>)
    ensures result == NonEmptyPhrases(phrases)
  {
    result := [];
    for i := 0 to |phrases|
      invariant result == NonEmptyPhrases(phrases[..i])
    {
      assert phrases[..i + 1][..i] == phrases[..i];
      if phrases[i] != "" {
        result := result + [phrases[i]];
      }
    }
    assert phrases[..|phrases|] == phrases;
  }

  method MatchAnyPhrase(v: string, phrases: seq<string>) returns (ok: bool)
    ensures ok == exists i :: 0 <= i < |phrases| && PhraseMatches(v, phrases[i])
  {
    for i := 0 to |phrases|
      invariant forall k :: 0 <= k < i ==> !PhraseMatches(v, phrases[k])
    {
      ok := MatchPhrase(v, phrases[i]);
      if ok {
        return;
      }
    }
    return false;
  }

  method MatchLeaf(leaf: Leaf, v: string) returns (ok: bool)
    ensures ok == LeafMatches(leaf, v)
  {
    match leaf
    case Phrase(phrase) => ok := MatchPhrase(v, phrase);
    case Prefix(prefix) => ok := MatchPrefix(v, prefix);
    case Substring(substring) => ok := MatchSubstring(v, substring);
    case Exact(value) => ok := v == value;
    case Sequence(phrases) =>
      var nonEmpty := GetNonEmptyPhrases(phrases);
      ok := MatchSequence(v, nonEmpty);
      EmptyPhrasesAreSkipped(v, phrases);
    case In(values) => ok := v in values;
    case ContainsAny(phrases) => ok := MatchAnyPhrase(v, phrases);
  }

  method MatchRow(f: Filter, fields: Fields) returns (ok: bool)
    ensures ok == MatchesRow(f, fields)
    decreases f
  {
    match f
    case Generic(field, leaf) => ok := MatchLeaf(leaf, GetFieldValueByName(fields, field));
    case And(filters) =>
      for i := 0 to |filters|
        invariant forall k :: 0 <= k < i ==> MatchesRow(filters[k], fields)
      {
        ok := MatchRow(filters[i], fields);
        if !ok {
          return;
        }
      }
      return true;
    case Or(filters) =>
      for i := 0 to |filters|
        invariant forall k :: 0 <= k < i ==> !MatchesRow(filters[k], fields)
      {
        ok := MatchRow(filters[i], fields);
        if ok {
          return;
        }
      }
      return false;
    case Not(g) =>
      ok := MatchRow(g, fields);
      ok := !ok;
  }

  // ---------- Tokens that a match needs ----------

  ghost predicate IsTokenOfSome(phrases: seq<string>, t: string) {
    exists i :: 0 <= i < |phrases| && IsTokenOf(phrases[i], t)
  }

  ghost predicate IsLeafToken(leaf: Leaf, t: string) {
    match leaf
    case Phrase(phrase) => IsTokenOf(phrase, t)
    case Prefix(prefix) => IsTokenOf(SkipLastToken(prefix), t)
    case Substring(substring) => IsTokenOf(SkipLastToken(SkipFirstToken(substring)), t)
    case Exact(value) => IsTokenOf(value, t)
    case Sequence(phrases) => IsTokenOfSome(phrases, t)
    case In(_) => false
    case ContainsAny(_) => false
  }

  /** Every matching value has every token of the filter as a whole word. */
  lemma {:induction false} LeafTokenNeeded(leaf: Leaf, v: string, t: string)
    requires LeafMatches(leaf, v) && IsLeafToken(leaf, t)
    ensures IsTokenOf(v, t)
  {
    match leaf
    case Phrase(phrase) =>
      if phrase != "" {
        var pos :| PhraseAt(v, phrase, pos);
        PhraseTokens(v, phrase, pos, t);
      }
    case Prefix(prefix) =>
      if prefix != "" {
        var pos :| PrefixAt(v, prefix, pos);
        PrefixTokens(v, prefix, pos, t);
      }
    case Substring(substring) =>
      var pos :| OccursAt(v, substring, pos);
      SubstringTokens(v, substring, pos, t);
    case Exact(value) =>
    case Sequence(phrases) =>
      var i :| 0 <= i < |phrases| && IsTokenOf(phrases[i], t);
      SequenceTokens(v, phrases, i, t);
  }

  /** The tokens that a filter takes for certain in the values of a field. */
  ghost predicate IsFieldToken(f: Filter, field: string, t: string) {
    match f
    case Generic(name, leaf) => name == field && IsLeafToken(leaf, t)
    case And(filters) =>
      exists i :: 0 <= i < |filters| && (filters[i].Generic? || filters[i].Or?) && IsFieldToken(filters[i], field, t)
    case Or(filters) =>
      filters != [] &&
      forall i :: 0 <= i < |filters| ==> (filters[i].Generic? || filters[i].And?) && IsFieldToken(filters[i], field, t)
    case Not(_) => false
  }

  lemma {:induction false} FieldTokenNeeded(f: Filter, field: string, t: string, fields: Fields)
    requires IsFieldToken(f, field, t) && BlockKeeps(f, fields)
    ensures IsTokenOf(GetFieldValueByName(fields, field), t)
    decreases f
  {
    match f
    case Generic(name, leaf) => LeafTokenNeeded(leaf, GetFieldValueByName(fields, field), t);
    case And(filters) =>
      var i :| 0 <= i < |filters| && (filters[i].Generic? || filters[i].Or?) && IsFieldToken(filters[i], field, t);
      FieldTokenNeeded(filters[i], field, t, fields);
    case Or(filters) =>
      var i :| 0 <= i < |filters| && BlockKeeps(filters[i], fields);
      FieldTokenNeeded(filters[i], field, t, fields);
  }

  method TokenizeStrings(a: seq<string>) returns (tokens: seq<string>)
    ensures forall t :: t in tokens <==> IsTokenOfSome(a, t)
  {
    tokens := [];
    for i := 0 to |a|
      invariant forall t :: t in tokens <==> exists k :: 0 <= k < i && IsTokenOf(a[k], t)
    {
      if i > 0 && a[i] == a[i - 1] {
        continue;
      }
      var more := TokenizeString(a[i]);
      tokens := AddMissing(tokens, more);
    }
  }

  method AddMissing(tokens0: seq<string>, more: seq<string>) returns (tokens: seq<string>)
    ensures forall t :: t in tokens <==> t in tokens0 || t in more
    ensures Distinct(tokens0) ==> Distinct(tokens)
  {
    tokens := tokens0;
    for i := 0 to |more|
      invariant forall t :: t in tokens <==> t in tokens0 || t in more[..i]
      invariant Distinct(tokens0) ==> Distinct(tokens)
    {
      assert more[..i + 1] == more[..i] + [more[i]];
      if more[i] !in tokens {
        tokens := tokens + [more[i]];
      }
    }
    assert more[..|more|] == more;
  }

  ghost predicate Distinct(tokens: seq<string>) {
    forall i, j :: 0 <= i < j < |tokens| ==> tokens[i] != tokens[j]
  }

  lemma {:induction false} TokensOfNonEmpty(phrases: seq<string>)
    ensures forall t :: IsTokenOfSome(NonEmptyPhrases(phrases), t) <==> IsTokenOfSome(phrases, t)
  {
    NonEmptyElements(phrases);
    forall t ensures IsTokenOfSome(NonEmptyPhrases(phrases), t) <==> IsTokenOfSome(phrases, t) {
      if i :| 0 <= i < |phrases| && IsTokenOf(phrases[i], t) {
        assert phrases[i] in NonEmptyPhrases(phrases);
      }
      if i :| 0 <= i < |NonEmptyPhrases(phrases)| && IsTokenOf(NonEmptyPhrases(phrases)[i], t) {
        assert NonEmptyPhrases(phrases)[i] in phrases;
      }
    }
  }

  method GetLeafTokens(leaf: Leaf) returns (tokens: seq<string>)
    ensures forall t :: t in tokens <==> IsLeafToken(leaf, t)
  {
    match leaf
    case Phrase(phrase) => tokens := TokenizeString(phrase);
    case Prefix(prefix) =>
      var s := SkipLast(prefix);
      tokens := TokenizeString(s);
    case Substring(substring) =>
      var s := SkipFirst(substring);
      s := SkipLast(s);
      tokens := TokenizeString(s);
    case Exact(value) => tokens := TokenizeString(value);
    case Sequence(phrases) =>
      var nonEmpty := GetNonEmptyPhrases(phrases);
      tokens := TokenizeStrings(nonEmpty);
      TokensOfNonEmpty(phrases);
    case In(_) => tokens := [];
    case ContainsAny(_) => tokens := [];
  }

  // ---------- Tokens by field ----------

  datatype FieldTokens = FieldTokens(field: string, tokens: seq<string>)

  ghost predicate HasFieldToken(fts: seq<FieldTokens>, field: string, t: string) {
    exists k :: 0 <= k < |fts| && fts[k].field == field && t in fts[k].tokens
  }

  /** One entry per field, none of them empty. */
  ghost predicate ByField(fts: seq<FieldTokens>) {
    && (forall k :: 0 <= k < |fts| ==> fts[k].tokens != [])
    && forall i, j :: 0 <= i < j < |fts| ==> fts[i].field != fts[j].field
  }

  /** The collected tokens are exactly those that the filter needs. */
  ghost predicate Collected(f: Filter, fts: seq<FieldTokens>) {
    ByField(fts) && forall field, t :: HasFieldToken(fts, field, t) <==> IsFieldToken(f, field, t)
  }

  /** The entries have got the tokens of the field, and no others. */
  ghost predicate AddsTokens(before: seq<FieldTokens>, after: seq<FieldTokens>, field: string, tokens: seq<string>) {
    forall name, t :: HasFieldToken(after, name, t) <==> HasFieldToken(before, name, t) || (name == field && t in tokens)
  }

  /** Adds tokens to the entry of a field. */
  method MergeFieldTokens(fts0: seq<FieldTokens>, field: string, tokens: seq<string>) returns (fts: seq<FieldTokens>)
    requires ByField(fts0)
    ensures ByField(fts) && AddsTokens(fts0, fts, field, tokens)
  {
    if |tokens| == 0 {
      return fts0;
    }
    for k := 0 to |fts0|
      invariant forall i :: 0 <= i < k ==> fts0[i].field != field
    {
      if fts0[k].field == field {
        var all := AddMissing(fts0[k].tokens, tokens);
        assert fts0[k].tokens[0] in all;
        fts := fts0[k := FieldTokens(field, all)];
        ReplacedEntry(fts0, k, field, all, tokens);
        return;
      }
    }
    fts := fts0 + [FieldTokens(field, tokens)];
    AddedEntry(fts0, field, tokens);
  }

  lemma {:induction false} ReplacedEntry(fts: seq<FieldTokens>, k: nat, field: string, all: seq<string>, tokens: seq<string>)
    requires k < |fts| && fts[k].field == field && forall t :: t in all <==> t in fts[k].tokens || t in tokens
    ensures AddsTokens(fts, fts[k := FieldTokens(field, all)], field, tokens)
  {
    var fts' := fts[k := FieldTokens(field, all)];
    forall name, t
      ensures HasFieldToken(fts', name, t) <==> HasFieldToken(fts, name, t) || (name == field && t in tokens)
    {
      if i :| 0 <= i < |fts| && fts[i].field == name && t in fts[i].tokens {
        assert fts'[i].field == name && t in fts'[i].tokens;
      }
      if name == field && t in tokens {
        assert fts'[k].field == name && t in fts'[k].tokens;
      }
    }
  }

  lemma {:induction false} AddedEntry(fts: seq<FieldTokens>, field: string, tokens: seq<string>)
    ensures AddsTokens(fts, fts + [FieldTokens(field, tokens)], field, tokens)
  {
    var ft := FieldTokens(field, tokens);
    forall name, t
      ensures HasFieldToken(fts + [ft], name, t) <==> HasFieldToken(fts, name, t) || (name == field && t in tokens)
    {
      if i :| 0 <= i < |fts| && fts[i].field == name && t in fts[i].tokens {
        assert (fts + [ft])[i] == fts[i];
      }
      assert (fts + [ft])[|fts|] == ft;
    }
  }

  /** The entries have got those of another list, and no others. */
  ghost predicate AddsEntries(before: seq<FieldTokens>, after: seq<FieldTokens>, more: seq<FieldTokens>) {
    forall name, t :: HasFieldToken(after, name, t) <==> HasFieldToken(before, name, t) || HasFieldToken(more, name, t)
  }

  lemma {:induction false} AddsNextEntry(before: seq<FieldTokens>, now: seq<FieldTokens>, after: seq<FieldTokens>, more: seq<FieldTokens>, ft: FieldTokens)
    requires AddsEntries(before, now, more) && AddsTokens(now, after, ft.field, ft.tokens)
    ensures AddsEntries(before, after, more + [ft])
  {
    AddedEntry(more, ft.field, ft.tokens);
    assert ft == FieldTokens(ft.field, ft.tokens);
  }

  /** Adds the entries of a child. */
  method MergeAll(fts0: seq<FieldTokens>, more: seq<FieldTokens>) returns (fts: seq<FieldTokens>)
    requires ByField(fts0)
    ensures ByField(fts) && AddsEntries(fts0, fts, more)
  {
    fts := fts0;
    for i := 0 to |more|
      invariant ByField(fts) && AddsEntries(fts0, fts, more[..i])
    {
      ghost var now := fts;
      fts := MergeFieldTokens(fts, more[i].field, more[i].tokens);
      AddsNextEntry(fts0, now, fts, more[..i], more[i]);
      assert more[..i + 1] == more[..i] + [more[i]];
    }
    assert more[..|more|] == more;
  }

  ghost predicate InFirst(tokenSets: seq<seq<string>>, n: nat, t: string)
    requires n <= |tokenSets|
  {
    forall i :: 0 <= i < n ==> t in tokenSets[i]
  }

  /** The tokens that all sets have in common. */
  method GetCommonTokens(tokenSets: seq<seq<string>>) returns (commonTokens: seq<string>)
    ensures forall t :: t in commonTokens <==> tokenSets != [] && InFirst(tokenSets, |tokenSets|, t)
  {
    if |tokenSets| == 0 {
      return [];
    }
    commonTokens := tokenSets[0];
    for i := 1 to |tokenSets|
      invariant forall t :: t in commonTokens <==> InFirst(tokenSets, i, t)
    {
      if |commonTokens| == 0 {
        forall t ensures !InFirst(tokenSets, |tokenSets|, t) {
          assert !InFirst(tokenSets, i, t);
        }
        return [];
      }
      commonTokens := KeepCommon(commonTokens, tokenSets[i]);
    }
  }

  method KeepCommon(tokens: seq<string>, other: seq<string>) returns (dst: seq<string>)
    ensures forall t :: t in dst <==> t in tokens && t in other
  {
    dst := [];
    for i := 0 to |tokens|
      invariant forall t :: t in dst <==> t in tokens[..i] && t in other
    {
      assert tokens[..i + 1] == tokens[..i] + [tokens[i]];
      if tokens[i] in other {
        dst := dst + [tokens[i]];
      }
    }
    assert tokens[..|tokens|] == tokens;
  }

  method TokensOfField(fts: seq<FieldTokens>, field: string) returns (tokens: seq<string>)
    requires ByField(fts)
    ensures forall t :: t in tokens <==> HasFieldToken(fts, field, t)
  {
    for k := 0 to |fts|
      invariant forall i :: 0 <= i < k ==> fts[i].field != field
    {
      if fts[k].field == field {
        return fts[k].tokens;
      }
    }
    return [];
  }

  method GetByFieldTokens(f: Filter) returns (fts: seq<FieldTokens>)
    requires !f.Not?
    ensures Collected(f, fts)
    decreases f, 1
  {
    match f
    case Generic(field, leaf) =>
      var tokens := GetLeafTokens(leaf);
      fts := MergeFieldTokens([], field, tokens);
      assert forall name, t :: !HasFieldToken([], name, t);
    case And(filters) => fts := GetCommonTokensForAndFilters(f, filters);
    case Or(filters) => fts := GetCommonTokensForOrFilters(f, filters);
  }

  /** What the first n filters of a conjunction contribute. */
  ghost predicate IsTokenOfFirst(filters: seq<Filter>, n: nat, field: string, t: string)
    requires n <= |filters|
  {
    exists i :: 0 <= i < n && (filters[i].Generic? || filters[i].Or?) && IsFieldToken(filters[i], field, t)
  }

  method GetCommonTokensForAndFilters(f: Filter, filters: seq<Filter>) returns (fts: seq<FieldTokens>)
    requires f == And(filters)
    ensures Collected(f, fts)
    decreases f, 0
  {
    fts := [];
    for i := 0 to |filters|
      invariant ByField(fts) && CollectedFirst(filters, i, fts)
    {
      ghost var now := fts;
      if filters[i].Generic? || filters[i].Or? {
        var more := GetByFieldTokens(filters[i]);
        fts := MergeAll(fts, more);
        FilterContributes(filters, i, now, fts, more);
      } else {
        FilterIsSkipped(filters, i, fts);
      }
    }
  }

  /** The tokens that the first n filters contribute. */
  ghost predicate CollectedFirst(filters: seq<Filter>, n: nat, fts: seq<FieldTokens>)
    requires n <= |filters|
  {
    forall field, t :: HasFieldToken(fts, field, t) <==> IsTokenOfFirst(filters, n, field, t)
  }

  lemma {:induction false} FilterContributes(filters: seq<Filter>, i: nat, now: seq<FieldTokens>, fts: seq<FieldTokens>, more: seq<FieldTokens>)
    requires i < |filters| && (filters[i].Generic? || filters[i].Or?) && CollectedFirst(filters, i, now)
    requires Collected(filters[i], more) && AddsEntries(now, fts, more)
    ensures CollectedFirst(filters, i + 1, fts)
  {
  }

  lemma {:induction false} FilterIsSkipped(filters: seq<Filter>, i: nat, fts: seq<FieldTokens>)
    requires i < |filters| && !(filters[i].Generic? || filters[i].Or?) && CollectedFirst(filters, i, fts)
    ensures CollectedFirst(filters, i + 1, fts)
  {
  }

  /** Common tokens of all alternatives, field by field; none when some alternative has no tokens at all. */
  method GetCommonTokensForOrFilters(f: Filter, filters: seq<Filter>) returns (fts: seq<FieldTokens>)
    requires f == Or(filters)
    ensures Collected(f, fts)
    decreases f, 0
  {
    var children := [];
    for i := 0 to |filters|
      invariant |children| == i && forall k :: 0 <= k < i ==> filters[k].Generic? || filters[k].And?
      invariant forall k :: 0 <= k < i ==> Collected(filters[k], children[k])
    {
      if !filters[i].Generic? && !filters[i].And? {
        return [];
      }
      var more := GetByFieldTokens(filters[i]);
      children := children + [more];
    }
    if |children| == 0 {
      return [];
    }
    fts := CommonByField(children);
    forall field, t ensures HasFieldToken(fts, field, t) <==> IsFieldToken(f, field, t) {
      assert IsFieldToken(f, field, t) <==> forall i :: 0 <= i < |filters| ==> IsFieldToken(filters[i], field, t);
      assert forall i :: 0 <= i < |filters| ==> Collected(filters[i], children[i]);
    }
  }

  /** A field that counts is a field of the first alternative. */
  method CommonByField(children: seq<seq<FieldTokens>>) returns (fts: seq<FieldTokens>)
    requires children != [] && forall i :: 0 <= i < |children| ==> ByField(children[i])
    ensures ByField(fts)
    ensures forall field, t :: HasFieldToken(fts, field, t) <==> InAll(children, field, t)
  {
    var first := children[0];
    fts := [];
    for k := 0 to |first|
      invariant ByField(fts) && AreCommonOf(fts, first[..k], children)
    {
      var commonTokens := CommonTokensOf(children, first[k].field);
      ghost var now := fts;
      fts := MergeFieldTokens(fts, first[k].field, commonTokens);
      NextCommon(now, fts, first, k, children, commonTokens);
    }
    assert first[..|first|] == first;
    forall field, t
      ensures HasFieldToken(fts, field, t) <==> InAll(children, field, t)
    {
      assert InAll(children, field, t) ==> HasFieldToken(children[0], field, t);
    }
  }

  ghost predicate InAll(children: seq<seq<FieldTokens>>, field: string, t: string) {
    forall i :: 0 <= i < |children| ==> HasFieldToken(children[i], field, t)
  }

  /** The entries are those of the first alternative that all alternatives have. */
  ghost predicate AreCommonOf(fts: seq<FieldTokens>, first: seq<FieldTokens>, children: seq<seq<FieldTokens>>) {
    forall field, t :: HasFieldToken(fts, field, t) <==> HasFieldToken(first, field, t) && InAll(children, field, t)
  }

  lemma {:induction false} NextCommon(now: seq<FieldTokens>, fts: seq<FieldTokens>, first: seq<FieldTokens>, k: nat,
                                      children: seq<seq<FieldTokens>>, commonTokens: seq<string>)
    requires ByField(first) && k < |first| && AreCommonOf(now, first[..k], children)
    requires AddsTokens(now, fts, first[k].field, commonTokens)
    requires children != [] && first == children[0] && forall t :: t in commonTokens <==> InAll(children, first[k].field, t)
    ensures AreCommonOf(fts, first[..k + 1], children)
  {
    var ft := first[k];
    AddedEntry(first[..k], ft.field, ft.tokens);
    assert first[..k + 1] == first[..k] + [FieldTokens(ft.field, ft.tokens)];
    OnlyEntry(first, k);
    forall field, t
      ensures HasFieldToken(fts, field, t) <==> HasFieldToken(first[..k + 1], field, t) && InAll(children, field, t)
    {
      if field == ft.field && InAll(children, field, t) {
        assert HasFieldToken(children[0], field, t);
      }
    }
  }

  lemma {:induction false} OnlyEntry(fts: seq<FieldTokens>, k: nat)
    requires ByField(fts) && k < |fts|
    ensures forall t :: HasFieldToken(fts, fts[k].field, t) <==> t in fts[k].tokens
    ensures forall t :: !HasFieldToken(fts[..k], fts[k].field, t)
  {
  }

  method CommonTokensOf(children: seq<seq<FieldTokens>>, field: string) returns (commonTokens: seq<string>)
    requires children != [] && forall i :: 0 <= i < |children| ==> ByField(children[i])
    ensures forall t :: t in commonTokens <==> forall i :: 0 <= i < |children| ==> HasFieldToken(children[i], field, t)
  {
    var tokenss := [];
    for i := 0 to |children|
      invariant |tokenss| == i
      invariant forall k :: 0 <= k < i ==> forall t :: t in tokenss[k] <==> HasFieldToken(children[k], field, t)
    {
      var tokens := TokensOfField(children[i], field);
      tokenss := tokenss + [tokens];
    }
    commonTokens := GetCommonTokens(tokenss);
  }
}
