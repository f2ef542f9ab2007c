/** Tokens: the whole words of a string, and which of them a filter may rely on. */
module Tokens {
  import opened Phrases

  /** s[i..j] is a whole word of s. */
  predicate IsTokenAt(s: string, i: int, j: int) {
    && 0 <= i < j <= |s|
    && (forall k :: i <= k < j ==> IsTokenChar(s[k]))
    && (i > 0 ==> !IsTokenChar(s[i - 1]))
    && (j < |s| ==> !IsTokenChar(s[j]))
  }

  ghost predicate IsTokenOf(s: string, token: string) {
    exists i, j :: IsTokenAt(s, i, j) && token == s[i..j]
  }

  predicate IsWord(token: string) {
    token != "" && forall k :: 0 <= k < |token| ==> IsTokenChar(token[k])
  }

  lemma {:induction false} TokenIsWord(s: string, token: string)
    requires IsTokenOf(s, token)
    ensures IsWord(token) && |token| <= |s|
  {
    var i, j :| IsTokenAt(s, i, j) && token == s[i..j];
    assert forall k :: 0 <= k < |token| ==> token[k] == s[i + k];
  }

  /** Searching for a word as a phrase finds it exactly when it is a token. */
  lemma {:induction false} WordMatchesAsToken(s: string, token: string)
    requires IsWord(token)
    ensures PhraseMatches(s, token) <==> IsTokenOf(s, token)
  {
    if pos :| PhraseAt(s, token, pos) {
      assert forall k :: pos <= k < pos + |token| ==> s[k] == token[k - pos];
      assert IsTokenAt(s, pos, pos + |token|);
    }
    if i, j :| IsTokenAt(s, i, j) && token == s[i..j] {
      assert PhraseAt(s, token, i);
    }
  }

  // ---------- Tokenizing ----------

  /** Where the next token starts and ends, and where to go on. */
  method NextToken(s: string, i0: nat) returns (start: nat, end: nat, i: nat)
    requires i0 <= |s| && (0 < i0 < |s| ==> !IsTokenChar(s[i0 - 1]))
    ensures i0 <= i <= |s| && start <= |s| && end <= |s| && (i0 < |s| ==> i0 < i)
    ensures 0 < i < |s| ==> !IsTokenChar(s[i - 1])
    ensures start < end ==> IsTokenAt(s, start, end) && i0 <= start && end <= i
    ensures forall a, b :: IsTokenAt(s, a, b) && i0 <= a < i ==> start < end && a == start && b == end
    ensures start >= end ==> i == |s|
  {
    i := i0;
    start := |s|;
    while i < |s|
      invariant i0 <= i <= |s|
      invariant start == |s| && forall k :: i0 <= k < i ==> !IsTokenChar(s[k])
    {
      if !IsTokenChar(s[i]) {
        i := i + 1;
        continue;
      }
      start := i;
      i := i + 1;
      break;
    }
    end := |s|;
    while i < |s|
      invariant i0 <= i <= |s| && end == |s| && (i0 < |s| ==> i0 < i)
      invariant if start < |s| then i0 <= start < i else start == |s| == i
      invariant forall k :: i0 <= k < start ==> !IsTokenChar(s[k])
      invariant forall k :: start <= k < i ==> IsTokenChar(s[k])
    {
      if IsTokenChar(s[i]) {
        i := i + 1;
        continue;
      }
      end := i;
      i := i + 1;
      break;
    }
    forall a, b | IsTokenAt(s, a, b) && i0 <= a < i ensures start < end && a == start && b == end {
      assert IsTokenChar(s[a]);
      var before := if a > 0 then s[a - 1] else ' ';
      var after := if end < |s| then s[end] else ' ';
    }
  }

  method TokenizeString(s: string) returns (tokens: seq<string>)
    ensures forall t :: t in tokens <==> IsTokenOf(s, t)
    ensures forall i, j :: 0 <= i < j < |tokens| ==> tokens[i] != tokens[j]
  {
    tokens := [];
    var i := 0;
    while i < |s|
      invariant 0 <= i <= |s| && (0 < i < |s| ==> !IsTokenChar(s[i - 1]))
      invariant forall t :: t in tokens <==> IsTokenBefore(s, i, t)
      invariant forall a, b :: 0 <= a < b < |tokens| ==> tokens[a] != tokens[b]
    {
      var start, end, next := NextToken(s, i);
      TokensUpTo(s, i, next, start, end);
      i := next;
      if end <= start {
        break;
      }
      var token := s[start..end];
      if token !in tokens {
        tokens := tokens + [token];
      }
    }
    forall t ensures IsTokenBefore(s, |s|, t) <==> IsTokenOf(s, t) {
    }
  }

  /** Some token that starts before position i. */
  ghost predicate IsTokenBefore(s: string, i: int, t: string) {
    exists a, b :: IsTokenAt(s, a, b) && a < i && t == s[a..b]
  }

  lemma {:induction false} TokensUpTo(s: string, i: nat, next: nat, start: nat, end: nat)
    requires i <= next <= |s| && start <= |s| && end <= |s|
    requires start < end ==> IsTokenAt(s, start, end) && i <= start && end <= next
    requires forall a, b :: IsTokenAt(s, a, b) && i <= a < next ==> start < end && a == start && b == end
    ensures forall t :: IsTokenBefore(s, next, t) <==> IsTokenBefore(s, i, t) || (start < end && t == s[start..end])
  {
    forall t ensures IsTokenBefore(s, next, t) <==> IsTokenBefore(s, i, t) || (start < end && t == s[start..end]) {
      if IsTokenBefore(s, next, t) {
        var a, b :| IsTokenAt(s, a, b) && a < next && t == s[a..b];
      }
    }
  }

  // ---------- Parts of a string ----------

  /** The string without a word it starts with. */
  function SkipFirstToken(s: string): string {
    if s == "" || !IsTokenChar(s[0]) then s else SkipFirstToken(s[1..])
  }

  function SkipLastToken(s: string): string {
    if s == "" || !IsTokenChar(s[|s| - 1]) then s else SkipLastToken(s[..|s| - 1])
  }

  method SkipFirst(s0: string) returns (s: string)
    ensures s == SkipFirstToken(s0)
  {
    s := s0;
    while s != "" && IsTokenChar(s[0])
      invariant SkipFirstToken(s) == SkipFirstToken(s0)
      decreases |s|
    {
      s := s[1..];
    }
  }

  method SkipLast(s0: string) returns (s: string)
    ensures s == SkipLastToken(s0)
  {
    s := s0;
    while s != "" && IsTokenChar(s[|s| - 1])
      invariant SkipLastToken(s) == SkipLastToken(s0)
      decreases |s|
    {
      s := s[..|s| - 1];
    }
  }

  lemma {:induction false} SkippedFirst(s: string) returns (k: nat)
    ensures k <= |s| && SkipFirstToken(s) == s[k..] && (k < |s| ==> !IsTokenChar(s[k]))
    ensures forall i :: 0 <= i < k ==> IsTokenChar(s[i])
  {
    k := 0;
    if s != "" && IsTokenChar(s[0]) {
      k := SkippedFirst(s[1..]);
      assert s[1..][k..] == s[k + 1..];
      k := k + 1;
    }
  }

  lemma {:induction false} SkippedLast(s: string) returns (k: nat)
    ensures k <= |s| && SkipLastToken(s) == s[..k] && (k > 0 ==> !IsTokenChar(s[k - 1]))
    ensures forall i :: k <= i < |s| ==> IsTokenChar(s[i])
  {
    k := |s|;
    if s != "" && IsTokenChar(s[|s| - 1]) {
      k := SkippedLast(s[..|s| - 1]);
      assert s[..|s| - 1][..k] == s[..k];
    }
  }

  // ---------- Which tokens a match needs ----------

  /** A token of x is a token of v where x occurs in v, if it is whole there. */
  lemma {:induction false} TokenOfOccurrence(v: string, x: string, pos: int, i: int, j: int)
    requires OccursAt(v, x, pos) && IsTokenAt(x, i, j)
    requires i == 0 && pos > 0 ==> !IsTokenChar(v[pos - 1])
    requires j == |x| && pos + |x| < |v| ==> !IsTokenChar(v[pos + |x|])
    ensures IsTokenOf(v, x[i..j])
  {
    assert forall k :: 0 <= k < |x| ==> v[pos + k] == x[k];
    forall m | 0 <= m < j - i ensures v[pos + i..pos + j][m] == x[i..j][m] {
      assert v[pos + (i + m)] == x[i + m];
    }
    assert v[pos + i..pos + j] == x[i..j];
    assert IsTokenAt(v, pos + i, pos + j);
  }

  /** Every word of a phrase is a word of the strings it occurs in. */
  lemma {:induction false} PhraseTokens(v: string, phrase: string, pos: int, token: string)
    requires phrase != "" && PhraseAt(v, phrase, pos) && IsTokenOf(phrase, token)
    ensures IsTokenOf(v, token)
  {
    var i, j :| IsTokenAt(phrase, i, j) && token == phrase[i..j];
    TokenOfOccurrence(v, phrase, pos, i, j);
  }

  /** The last word of a prefix may go on. */
  lemma {:induction false} PrefixTokens(v: string, prefix: string, pos: int, token: string)
    requires prefix != "" && PrefixAt(v, prefix, pos) && IsTokenOf(SkipLastToken(prefix), token)
    ensures IsTokenOf(v, token)
  {
    var k := SkippedLast(prefix);
    var i, j :| IsTokenAt(prefix[..k], i, j) && token == prefix[..k][i..j];
    assert j != k by {
      assert prefix[..k][j - 1] == prefix[j - 1];
    }
    assert IsTokenAt(prefix, i, j) && prefix[i..j] == token;
    TokenOfOccurrence(v, prefix, pos, i, j);
  }

  /** The first and the last word of a substring may be parts of longer ones. */
  lemma {:induction false} SubstringTokens(v: string, sub: string, pos: int, token: string)
    requires OccursAt(v, sub, pos) && IsTokenOf(SkipLastToken(SkipFirstToken(sub)), token)
    ensures IsTokenOf(v, token)
  {
    var i, j := InnerTokenPlace(sub, token);
    TokenOfOccurrence(v, sub, pos, i, j);
  }

  lemma {:induction false} InnerTokenPlace(sub: string, token: string) returns (i: int, j: int)
    requires IsTokenOf(SkipLastToken(SkipFirstToken(sub)), token)
    ensures IsTokenAt(sub, i, j) && 0 < i && j < |sub| && token == sub[i..j]
  {
    var f, k := InnerBounds(sub);
    i, j :| IsTokenAt(sub[f..][..k], i, j) && token == sub[f..][..k][i..j];
    InnerToken(sub, f, k, i, j);
    i, j := f + i, f + j;
  }

  lemma {:induction false} InnerBounds(sub: string) returns (f: nat, k: nat)
    ensures f <= |sub| && (f < |sub| ==> !IsTokenChar(sub[f]))
    ensures k <= |sub| - f && (k > 0 ==> !IsTokenChar(sub[f..][k - 1]))
    ensures SkipLastToken(SkipFirstToken(sub)) == sub[f..][..k]
  {
    f := SkippedFirst(sub);
    k := SkippedLast(sub[f..]);
  }

  lemma {:induction false} InnerToken(sub: string, f: int, k: int, i: int, j: int)
    requires 0 <= f <= |sub| && (f < |sub| ==> !IsTokenChar(sub[f]))
    requires 0 <= k <= |sub| - f && (k > 0 ==> !IsTokenChar(sub[f..][k - 1]))
    requires IsTokenAt(sub[f..][..k], i, j)
    ensures 0 < i && j < k && IsTokenAt(sub, f + i, f + j) && sub[f + i..f + j] == sub[f..][..k][i..j]
  {
    var inner := sub[f..][..k];
    assert forall m :: 0 <= m < k ==> inner[m] == sub[f..][m] == sub[f + m];
    assert IsTokenChar(inner[i]) && IsTokenChar(inner[j - 1]);
  }

  /** Every phrase of a sequence occurs, so its words do. */
  lemma {:induction false} SequenceTokens(v: string, phrases: seq<string>, i: nat, token: string)
    requires SequenceMatches(v, phrases) && i < |phrases| && IsTokenOf(phrases[i], token)
    ensures IsTokenOf(v, token)
  {
    var places :| ArePlaces(v, phrases, places);
    PhraseTokens(v, phrases[i], places[i], token);
  }

  // ---------- Dictionaries ----------

  /** The values of a dictionary, each followed by a comma. */
  function JoinValues(values: seq<string>): string {
    if values == [] then "" else JoinValues(values[..|values| - 1]) + values[|values| - 1] + ","
  }

  /** A word of a dictionary value is a word of the joined dictionary. */
  lemma {:induction false} JoinedTokens(values: seq<string>, k: nat, token: string)
    requires k < |values| && IsTokenOf(values[k], token)
    ensures IsTokenOf(JoinValues(values), token)
  {
    var rest, last := JoinValues(values[..|values| - 1]), values[|values| - 1];
    var joined := JoinValues(values);
    if k == |values| - 1 {
      var i, j :| IsTokenAt(last, i, j) && token == last[i..j];
      assert joined[|rest|..|rest| + |last|] == last;
      JoinedEndsWithComma(values[..|values| - 1]);
      TokenOfOccurrence(joined, last, |rest|, i, j);
    } else {
      JoinedTokens(values[..|values| - 1], k, token);
      var i, j :| IsTokenAt(rest, i, j) && token == rest[i..j];
      JoinedEndsWithComma(values[..|values| - 1]);
      assert joined[0..|rest|] == rest;
      TokenOfOccurrence(joined, rest, 0, i, j);
    }
  }

  lemma {:induction false} JoinedEndsWithComma(values: seq<string>)
    ensures values != [] ==> JoinValues(values) != "" && !IsTokenChar(JoinValues(values)[|JoinValues(values)| - 1])
    ensures values == [] ==> JoinValues(values) == ""
  {
  }
}
