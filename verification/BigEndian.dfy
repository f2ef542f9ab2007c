/** Fixed-width integers as bytes, the highest first. */
module BigEndian {
  type Byte = b: nat | b < 256

  function Power256(n: nat): (p: nat)
    ensures p > 0
  {
    if n == 0 then 1 else 256 * Power256(n - 1)
  }

  function Marshal(w: nat, n: nat): (data: seq<Byte>)
    ensures |data| == n
  {
    if n == 0 then [] else Marshal(w / 256, n - 1) + [w % 256]
  }

  function Unmarshal(data: seq<Byte>): (w: nat)
    ensures w < Power256(|data|)
  {
    if data == [] then 0 else 256 * Unmarshal(data[..|data| - 1]) + data[|data| - 1]
  }

  lemma {:induction false} RoundTrip(w: nat, n: nat)
    requires w < Power256(n)
    ensures Unmarshal(Marshal(w, n)) == w
  {
    if n > 0 {
      RoundTrip(w / 256, n - 1);
      assert Marshal(w, n)[..n - 1] == Marshal(w / 256, n - 1);
    }
  }

  /** The highest byte comes first. */
  lemma {:induction false} FirstByte(b: Byte, rest: seq<Byte>)
    ensures Unmarshal([b] + rest) == b * Power256(|rest|) + Unmarshal(rest)
  {
    if rest == [] {
      assert ([b] + rest)[..0] == [];
    } else {
      var front := rest[..|rest| - 1];
      FirstByte(b, front);
      assert ([b] + rest)[..|rest|] == [b] + front;
      assert 256 * (b * Power256(|front|)) == b * (256 * Power256(|front|));
    }
  }

  lemma {:induction false} OfBytes(data: seq<Byte>)
    ensures Marshal(Unmarshal(data), |data|) == data
  {
    if data != [] {
      OfBytes(data[..|data| - 1]);
    }
  }

  lemma {:induction false} Power256Of8()
    ensures Power256(1) == 0x100 && Power256(2) == 0x1_0000 && Power256(4) == 0x1_0000_0000
    ensures Power256(8) == 0x1_0000_0000_0000_0000
  {
    assert Power256(4) == 0x1_0000_0000;
    assert Power256(8) == 256 * (256 * (256 * (256 * Power256(4))));
  }

  // ---------- 128-bit numbers ----------

  type Uint128 = w: nat | w < 0x1_0000_0000_0000_0000_0000_0000_0000_0000

  function MarshalUint128(w: Uint128): (data: seq<Byte>)
    ensures |data| == 16
  {
    Marshal(w, 16)
  }

  lemma {:induction false} Power256Of16()
    ensures Power256(16) == 0x1_0000_0000_0000_0000_0000_0000_0000_0000
  {
    Power256Of8();
    assert Power256(12) == 256 * (256 * (256 * (256 * Power256(8))));
    assert Power256(16) == 256 * (256 * (256 * (256 * Power256(12))));
  }

  function UnmarshalUint128(data: seq<Byte>): Uint128
    requires |data| == 16
  {
    Power256Of16();
    Unmarshal(data)
  }

  lemma {:induction false} Uint128RoundTrip(w: Uint128)
    ensures UnmarshalUint128(MarshalUint128(w)) == w
  {
    Power256Of16();
    RoundTrip(w, 16);
  }

  lemma {:induction false} Uint128OfBytes(data: seq<Byte>)
    requires |data| == 16
    ensures MarshalUint128(UnmarshalUint128(data)) == data
  {
    OfBytes(data);
  }
}
