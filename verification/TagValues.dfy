/** Names and values of tags inside index rows: the bytes that mark their ends are escaped. */
module TagValues {
  import BE = BigEndian
  import opened StringsBlock
  import TR = TagRows

  const ESCAPE_CHAR: Byte := 0
  const TAG_SEPARATOR_CHAR: Byte := 1
  const KV_SEPARATOR_CHAR: Byte := 2

  /** '0', '1' and '2' behind the escape character stand for the three special characters. */
  function EscapedByte(ch: Byte): Bytes {
    if ch == ESCAPE_CHAR then [ESCAPE_CHAR, 48]
    else if ch == TAG_SEPARATOR_CHAR then [ESCAPE_CHAR, 49]
    else if ch == KV_SEPARATOR_CHAR then [ESCAPE_CHAR, 50]
    else [ch]
  }

  function Escaped(src: Bytes): Bytes {
    if src == [] then [] else Escaped(src[..|src| - 1]) + EscapedByte(src[|src| - 1])
  }

  function IndexByte(b: Bytes, ch: Byte): (i: nat)
    ensures i <= |b| && (i < |b| ==> b[i] == ch) && forall k :: 0 <= k < i ==> b[k] != ch
  {
    if b == [] || b[0] == ch then 0 else IndexByte(b[1..], ch) + 1
  }

  predicate IsPlain(src: Bytes) {
    forall i :: 0 <= i < |src| ==> src[i] > KV_SEPARATOR_CHAR
  }

  lemma {:induction false} PlainStays(src: Bytes)
    requires IsPlain(src)
    ensures Escaped(src) == src
  {
    if src != [] {
      var front, last := src[..|src| - 1], src[|src| - 1];
      assert src == front + [last];
      assert EscapedByte(last) == [last];
      PlainStays(front);
    }
  }

  method MarshalTagValue(dst: Bytes, src: Bytes) returns (r: Bytes)
    ensures r == dst + Escaped(src) + [TAG_SEPARATOR_CHAR]
  {
    if IsPlain(src) {
      PlainStays(src);
      r := dst + src;
      return r + [TAG_SEPARATOR_CHAR];
    }
    r := dst;
    for i := 0 to |src|
      invariant r == dst + Escaped(src[..i])
    {
      assert src[..i + 1][..i] == src[..i];
      var ch := src[i];
      if ch == ESCAPE_CHAR {
        r := r + [ESCAPE_CHAR, 48];
      } else if ch == TAG_SEPARATOR_CHAR {
        r := r + [ESCAPE_CHAR, 49];
      } else if ch == KV_SEPARATOR_CHAR {
        r := r + [ESCAPE_CHAR, 50];
      } else {
        r := r + [ch];
      }
    }
    assert src[..|src|] == src;
    r := r + [TAG_SEPARATOR_CHAR];
  }

  // ---------- Reading ----------

  function Unescaped(b: Bytes): Result<Bytes>
    decreases |b|
  {
    if b == [] then Ok([])
    else if b[0] != ESCAPE_CHAR then
      var rest :- Unescaped(b[1..]);
      Ok([b[0]] + rest)
    else if |b| < 2 || !(48 <= b[1] <= 50) then Err
    else
      var rest :- Unescaped(b[2..]);
      Ok([b[1] - 48] + rest)
  }

  /** The value and what follows it. */
  function ReadTagValue(src: Bytes): Result<(Bytes, Bytes)> {
    var n := TR.IndexSeparator(src, 0);
    if n == |src| then Err
    else
      var value :- Unescaped(src[..n]);
      Ok((value, src[n + 1..]))
  }

  /** What is still to be read gives the rest of the value. */
  ghost predicate ReadsOn(all: Bytes, done: Bytes, b: Bytes) {
    match Unescaped(b)
    case Err => Unescaped(all).Err?
    case Ok(rest) => Unescaped(all) == Ok(done + rest)
  }

  lemma {:induction false} PlainIsRead(all: Bytes, done: Bytes, b: Bytes, n: nat)
    requires ReadsOn(all, done, b) && n <= |b| && forall k :: 0 <= k < n ==> b[k] != ESCAPE_CHAR
    ensures ReadsOn(all, done + b[..n], b[n..])
  {
    if n == 0 {
      assert done + b[..0] == done && b[0..] == b;
    } else {
      PlainIsRead(all, done, b, n - 1);
      var c := b[n - 1..];
      assert c[0] == b[n - 1] && c[1..] == b[n..];
      assert b[..n] == b[..n - 1] + [b[n - 1]];
      if Unescaped(b[n..]).Ok? {
        var rest := Unescaped(b[n..]).value;
        assert done + b[..n - 1] + ([b[n - 1]] + rest) == done + b[..n] + rest;
      }
    }
  }

  lemma {:induction false} EscapeIsRead(all: Bytes, done: Bytes, b: Bytes)
    requires ReadsOn(all, done, b) && b != [] && b[0] == ESCAPE_CHAR
    ensures |b| < 2 || !(48 <= b[1] <= 50) ==> Unescaped(all).Err?
    ensures |b| >= 2 && 48 <= b[1] <= 50 ==> ReadsOn(all, done + [b[1] - 48], b[2..])
  {
    if |b| >= 2 && 48 <= b[1] <= 50 && Unescaped(b[2..]).Ok? {
      var rest := Unescaped(b[2..]).value;
      assert done + ([b[1] - 48] + rest) == done + [b[1] - 48] + rest;
    }
  }

  method UnmarshalTagValue(dst: Bytes, src: Bytes) returns (ok: bool, tail: Bytes, r: Bytes)
    ensures ok <==> ReadTagValue(src).Ok?
    ensures ok ==> r == dst + ReadTagValue(src).value.0 && tail == ReadTagValue(src).value.1
  {
    var n := TR.IndexSeparator(src, 0);
    if n == |src| {
      return false, src, dst;
    }
    tail := src[n + 1..];
    ok, r := UnescapeValue(dst, src[..n]);
  }

  method UnescapeValue(dst: Bytes, value: Bytes) returns (ok: bool, r: Bytes)
    ensures ok <==> Unescaped(value).Ok?
    ensures ok ==> r == dst + Unescaped(value).value
  {
    var b := value;
    ghost var done := [];
    assert Unescaped(b).Ok? ==> [] + Unescaped(b).value == Unescaped(b).value;
    r := dst;
    while true
      invariant r == dst + done && ReadsOn(value, done, b)
      decreases |b|
    {
      var k := IndexByte(b, ESCAPE_CHAR);
      NextIsRead(value, done, b, k);
      r := r + b[..k];
      if k == |b| {
        return true, r;
      }
      if |b| < k + 2 || !(48 <= b[k + 1] <= 50) {
        return false, r;
      }
      r := r + [b[k + 1] - 48];
      done := done + b[..k] + [b[k + 1] - 48];
      b := b[k + 2..];
    }
  }

  /** Up to the next escape character the bytes are taken as they are. */
  lemma {:induction false} NextIsRead(all: Bytes, done: Bytes, b: Bytes, k: nat)
    requires ReadsOn(all, done, b) && k <= |b| && (k < |b| ==> b[k] == ESCAPE_CHAR) && forall i :: 0 <= i < k ==> b[i] != ESCAPE_CHAR
    ensures k == |b| ==> Unescaped(all) == Ok(done + b[..k])
    ensures k < |b| && (|b| < k + 2 || !(48 <= b[k + 1] <= 50)) ==> Unescaped(all).Err?
    ensures k + 2 <= |b| && 48 <= b[k + 1] <= 50 ==> ReadsOn(all, done + b[..k] + [b[k + 1] - 48], b[k + 2..])
  {
    PlainIsRead(all, done, b, k);
    if k == |b| {
      assert done + b[..k] + [] == done + b[..k];
    } else {
      EscapeIsRead(all, done + b[..k], b[k..]);
      assert k + 2 <= |b| ==> b[k..][2..] == b[k + 2..];
    }
  }

  // ---------- Round trips ----------

  lemma {:induction false} ByteIsRead(ch: Byte, tail: Bytes)
    ensures Unescaped(EscapedByte(ch) + tail) == match Unescaped(tail) { case Err => Err case Ok(rest) => Ok([ch] + rest) }
  {
    var b := EscapedByte(ch) + tail;
    assert b[|EscapedByte(ch)|..] == tail;
  }

  lemma {:induction false} ValueIsRead(src: Bytes, tail: Bytes)
    ensures Unescaped(Escaped(src) + tail) == match Unescaped(tail) { case Err => Err case Ok(rest) => Ok(src + rest) }
  {
    if src == [] {
      assert Escaped(src) + tail == tail;
      assert Unescaped(tail).Ok? ==> [] + Unescaped(tail).value == Unescaped(tail).value;
    } else {
      var front, last := src[..|src| - 1], src[|src| - 1];
      assert Escaped(src) + tail == Escaped(front) + (EscapedByte(last) + tail);
      ValueIsRead(front, EscapedByte(last) + tail);
      ByteIsRead(last, tail);
      if Unescaped(tail).Ok? {
        var rest := Unescaped(tail).value;
        assert front + ([last] + rest) == src + rest;
      }
    }
  }

  /** The separator marks the end and nothing else. */
  lemma {:induction false} NoSeparators(src: Bytes)
    ensures forall i :: 0 <= i < |Escaped(src)| ==> Escaped(src)[i] != TAG_SEPARATOR_CHAR && Escaped(src)[i] != KV_SEPARATOR_CHAR
  {
    if src != [] {
      NoSeparators(src[..|src| - 1]);
    }
  }

  lemma {:induction false} SeparatorIsFound(b: Bytes, start: nat, i: nat)
    requires start <= i < |b| && b[i] == TAG_SEPARATOR_CHAR && forall k :: start <= k < i ==> b[k] != TAG_SEPARATOR_CHAR
    ensures TR.IndexSeparator(b, start) == i
    decreases i - start
  {
    if start < i {
      SeparatorIsFound(b, start + 1, i);
    }
  }

  /** Every name and value is read back, whatever bytes it has, and so is what follows it. */
  lemma {:induction false} TagValueRoundTrip(v: Bytes, tail: Bytes)
    ensures ReadTagValue(Escaped(v) + [TAG_SEPARATOR_CHAR] + tail) == Ok((v, tail))
  {
    var src := Escaped(v) + [TAG_SEPARATOR_CHAR] + tail;
    NoSeparators(v);
    SeparatorIsFound(src, 0, |Escaped(v)|);
    ValueIsRead(v, []);
    assert Escaped(v) + [] == Escaped(v) && v + [] == v;
    assert src[..|Escaped(v)|] == Escaped(v) && src[|Escaped(v)| + 1..] == tail;
  }
}
