/** Words, phrases and tokens of ASCII strings. */
module Phrases {

  /** Letters, digits and the underscore make up words. */
  predicate IsTokenChar(c: char) {
    'a' <= c <= 'z' || 'A' <= c <= 'Z' || '0' <= c <= '9' || c == '_'
  }

  /** These 63 characters, and no others. */
  lemma {:induction false} WordChars(c: char)
    ensures IsTokenChar(c) <==>
              c in "abcdefghijklm" || c in "nopqrstuvwxyz" || c in "ABCDEFGHIJKLM" || c in "NOPQRSTUVWXYZ" || c in "0123456789_"
  {
  }

  // ---------- Occurrences ----------

  predicate OccursAt(s: string, sub: string, pos: int) {
    0 <= pos && pos + |sub| <= |s| && s[pos..pos + |sub|] == sub
  }

  /** The word at the start of sub does not begin before pos. */
  predicate StartsWord(s: string, sub: string, pos: int)
    requires sub != "" && 0 <= pos <= |s|
  {
    IsTokenChar(sub[0]) && pos > 0 ==> !IsTokenChar(s[pos - 1])
  }

  predicate EndsWord(s: string, sub: string, pos: int)
    requires sub != "" && 0 <= pos && pos + |sub| <= |s|
  {
    IsTokenChar(sub[|sub| - 1]) && pos + |sub| < |s| ==> !IsTokenChar(s[pos + |sub|])
  }

  /** A phrase occurs with its first and last word complete. */
  predicate PhraseAt(s: string, phrase: string, pos: int)
    requires phrase != ""
  {
    OccursAt(s, phrase, pos) && StartsWord(s, phrase, pos) && EndsWord(s, phrase, pos)
  }

  predicate PrefixAt(s: string, prefix: string, pos: int)
    requires prefix != ""
  {
    OccursAt(s, prefix, pos) && StartsWord(s, prefix, pos)
  }

  /** strings.Index: the first occurrence from `start` on. */
  method Index(s: string, sub: string, start: nat) returns (pos: int)
    requires start <= |s|
    ensures pos == -1 || (start <= pos && OccursAt(s, sub, pos))
    ensures forall k :: start <= k && (pos == -1 || k < pos) ==> !OccursAt(s, sub, k)
  {
    pos := start;
    while pos + |sub| <= |s|
      invariant start <= pos
      invariant forall k :: start <= k < pos ==> !OccursAt(s, sub, k)
    {
      if s[pos..pos + |sub|] == sub {
        return;
      }
      pos := pos + 1;
    }
    pos := -1;
  }

  /** The first place where the phrase occurs as whole words, or -1. */
  method GetPhrasePos(s: string, phrase: string) returns (pos: int)
    ensures phrase == "" ==> pos == 0
    ensures phrase != "" ==> pos == -1 || PhraseAt(s, phrase, pos)
    ensures phrase != "" ==> forall k :: 0 <= k && (pos == -1 || k < pos) ==> !PhraseAt(s, phrase, k)
  {
    if |phrase| == 0 {
      return 0;
    }
    if |phrase| > |s| {
      return -1;
    }
    var startsWithToken, endsWithToken := IsTokenChar(phrase[0]), IsTokenChar(phrase[|phrase| - 1]);
    pos := 0;
    while true
      invariant 0 <= pos <= |s|
      invariant forall k :: 0 <= k < pos ==> !PhraseAt(s, phrase, k)
      decreases |s| - pos
    {
      var n := Index(s, phrase, pos);
      if n < 0 {
        return -1;
      }
      pos := n;
      if startsWithToken && pos > 0 && IsTokenChar(s[pos - 1]) {
        pos := pos + 1;
        continue;
      }
      if endsWithToken && pos + |phrase| < |s| && IsTokenChar(s[pos + |phrase|]) {
        pos := pos + 1;
        continue;
      }
      return;
    }
  }

  // ---------- What the filters mean ----------

  ghost predicate PhraseMatches(s: string, phrase: string) {
    if phrase == "" then s == "" else exists pos :: PhraseAt(s, phrase, pos)
  }

  ghost predicate PrefixMatches(s: string, prefix: string) {
    if prefix == "" then s != "" else exists pos :: PrefixAt(s, prefix, pos)
  }

  ghost predicate SubstringMatches(s: string, sub: string) {
    exists pos :: OccursAt(s, sub, pos)
  }

  predicate NonEmpty(phrases: seq<string>) {
    forall i :: 0 <= i < |phrases| ==> phrases[i] != ""
  }

  /** The phrases occur at these places, in this order and without overlap. Where a phrase is empty,
      the place does not matter. */
  ghost predicate ArePlaces(s: string, phrases: seq<string>, places: seq<int>) {
    && |places| == |phrases|
    && (forall i :: 0 <= i < |phrases| && phrases[i] != "" ==> PhraseAt(s, phrases[i], places[i]))
    && forall i, j :: 0 <= i < j < |phrases| && phrases[i] != "" && phrases[j] != "" ==> places[i] + |phrases[i]| <= places[j]
  }

  ghost predicate SequenceMatches(s: string, phrases: seq<string>) {
    exists places :: ArePlaces(s, phrases, places)
  }

  /** The phrases occur in this order and do not overlap, from `start` on. */
  ghost predicate SequenceFrom(s: string, phrases: seq<string>, start: int)
    requires NonEmpty(phrases)
  {
    phrases == [] ||
    exists pos :: start <= pos && PhraseAt(s, phrases[0], pos) && SequenceFrom(s, phrases[1..], pos + |phrases[0]|)
  }

  method MatchPhrase(s: string, phrase: string) returns (ok: bool)
    ensures ok == PhraseMatches(s, phrase)
  {
    if |phrase| == 0 {
      return |s| == 0;
    }
    var n := GetPhrasePos(s, phrase);
    assert forall k :: k < 0 ==> !PhraseAt(s, phrase, k);
    return n >= 0;
  }

  method MatchPrefix(s: string, prefix: string) returns (ok: bool)
    ensures ok == PrefixMatches(s, prefix)
  {
    if |prefix| == 0 {
      return |s| > 0;
    }
    if |prefix| > |s| {
      return false;
    }
    var startsWithToken := IsTokenChar(prefix[0]);
    var offset := 0;
    while true
      invariant 0 <= offset <= |s|
      invariant forall k :: 0 <= k < offset ==> !PrefixAt(s, prefix, k)
      decreases |s| - offset
    {
      var n := Index(s, prefix, offset);
      if n < 0 {
        assert forall k :: k < 0 ==> !PrefixAt(s, prefix, k);
        return false;
      }
      offset := n;
      if startsWithToken && offset > 0 && IsTokenChar(s[offset - 1]) {
        offset := offset + 1;
        continue;
      }
      assert PrefixAt(s, prefix, offset);
      return true;
    }
  }

  method MatchSubstring(s: string, sub: string) returns (ok: bool)
    ensures ok == SubstringMatches(s, sub)
  {
    var n := Index(s, sub, 0);
    return n >= 0;
  }

  // ---------- Sequences of phrases ----------

  lemma {:induction false} PlacesInOrder(s: string, phrases: seq<string>, start: int) returns (places: seq<int>)
    requires NonEmpty(phrases) && SequenceFrom(s, phrases, start)
    ensures ArePlaces(s, phrases, places) && (places != [] ==> start <= places[0])
  {
    places := [];
    if phrases != [] {
      var pos :| start <= pos && PhraseAt(s, phrases[0], pos) && SequenceFrom(s, phrases[1..], pos + |phrases[0]|);
      var rest := PlacesInOrder(s, phrases[1..], pos + |phrases[0]|);
      assert forall i :: 1 <= i < |phrases| ==> phrases[i] == phrases[1..][i - 1];
      assert forall i :: 0 < i < |rest| ==> rest[0] + |phrases[1..][0]| <= rest[i];
      places := [pos] + rest;
    }
  }

  lemma {:induction false} SequenceAtPlaces(s: string, phrases: seq<string>, start: int, places: seq<int>)
    requires NonEmpty(phrases) && ArePlaces(s, phrases, places) && (places != [] ==> start <= places[0])
    ensures SequenceFrom(s, phrases, start)
  {
    if phrases != [] {
      assert places[1..] != [] ==> places[0] + |phrases[0]| <= places[1];
      SequenceAtPlaces(s, phrases[1..], places[0] + |phrases[0]|, places[1..]);
    }
  }

  lemma {:induction false} SequenceHasPlaces(s: string, phrases: seq<string>)
    requires NonEmpty(phrases)
    ensures SequenceFrom(s, phrases, 0) <==> SequenceMatches(s, phrases)
  {
    if SequenceFrom(s, phrases, 0) {
      var _ := PlacesInOrder(s, phrases, 0);
    }
    if SequenceMatches(s, phrases) {
      var places :| ArePlaces(s, phrases, places);
      SequenceAtPlaces(s, phrases, 0, places);
    }
  }

  lemma {:induction false} SequenceFromEarlier(s: string, phrases: seq<string>, start: int, earlier: int)
    requires NonEmpty(phrases)
    requires SequenceFrom(s, phrases, start) && earlier <= start
    ensures SequenceFrom(s, phrases, earlier)
  {
  }

  /** The rest of the string is searched without what is to the left of it. That makes no
      difference: where a phrase ends with a word, no word starts right behind it. */
  lemma {:induction false} PhraseInRest(s: string, phrase: string, cut: nat, k: int)
    requires phrase != "" && cut <= |s|
    requires 0 < cut < |s| && IsTokenChar(s[cut - 1]) ==> !IsTokenChar(s[cut])
    ensures 0 <= k ==> PhraseAt(s[cut..], phrase, k) == PhraseAt(s, phrase, cut + k)
  {
    if 0 <= k && k + |phrase| <= |s| - cut {
      assert s[cut..][k..k + |phrase|] == s[cut + k..cut + k + |phrase|];
      assert k > 0 ==> s[cut..][k - 1] == s[cut + k - 1];
      assert s[cut + k..cut + k + |phrase|] == phrase ==> s[cut + k] == phrase[0];
    }
  }

  /** Taking the first place for every phrase finds a sequence exactly when there is one in the
      whole string. */
  method MatchSequence(s0: string, phrases: seq<string>) returns (ok: bool)
    requires NonEmpty(phrases)
    ensures ok == SequenceMatches(s0, phrases)
  {
    SequenceHasPlaces(s0, phrases);
    var s := s0;
    ghost var cut: nat := 0;
    for i := 0 to |phrases|
      invariant cut <= |s0| && s == s0[cut..]
      invariant 0 < cut < |s0| && IsTokenChar(s0[cut - 1]) ==> !IsTokenChar(s0[cut])
      invariant SequenceFrom(s0, phrases, 0) == SequenceFrom(s0, phrases[i..], cut)
    {
      var n := GetPhrasePos(s, phrases[i]);
      assert phrases[i..][1..] == phrases[i + 1..];
      FirstPlaceSuffices(s0, phrases[i..], cut, n);
      if n < 0 {
        return false;
      }
      s := s[n + |phrases[i]|..];
      cut := cut + n + |phrases[i]|;
    }
    return true;
  }

  lemma {:induction false} FirstPlaceSuffices(s: string, phrases: seq<string>, cut: nat, n: int)
    requires NonEmpty(phrases)
    requires phrases != [] && cut <= |s|
    requires 0 < cut < |s| && IsTokenChar(s[cut - 1]) ==> !IsTokenChar(s[cut])
    requires n == -1 || PhraseAt(s[cut..], phrases[0], n)
    requires forall k :: 0 <= k && (n == -1 || k < n) ==> !PhraseAt(s[cut..], phrases[0], k)
    ensures n == -1 ==> !SequenceFrom(s, phrases, cut)
    ensures n >= 0 ==> PhraseAt(s, phrases[0], cut + n)
    ensures n >= 0 ==> SequenceFrom(s, phrases, cut) == SequenceFrom(s, phrases[1..], cut + n + |phrases[0]|)
  {
    forall pos | cut <= pos && PhraseAt(s, phrases[0], pos) ensures n >= 0 && pos >= cut + n {
      PhraseInRest(s, phrases[0], cut, pos - cut);
    }
    if n >= 0 {
      PhraseInRest(s, phrases[0], cut, n);
      if SequenceFrom(s, phrases, cut) {
        var pos :| cut <= pos && PhraseAt(s, phrases[0], pos) && SequenceFrom(s, phrases[1..], pos + |phrases[0]|);
        SequenceFromEarlier(s, phrases[1..], pos + |phrases[0]|, cut + n + |phrases[0]|);
      }
    }
  }
}
