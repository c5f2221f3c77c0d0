/** Octets and the big-endian integers every layer of the protocol writes with them. */
module ByteStrings {
  import opened Arith

  type Byte = n: int | 0 <= n < 256
  type Bytes = seq<Byte>

  /** The low `width` octets of v, most significant first. */
  function BigEndian(v: nat, width: nat): (r: Bytes)
    ensures |r| == width
  {
    if width == 0 then [] else BigEndian(v / 256, width - 1) + [v % 256]
  }

  function FromBigEndian(b: Bytes): nat {
    if b == [] then 0 else FromBigEndian(b[..|b| - 1]) * 256 + b[|b| - 1]
  }

  lemma {:induction false} BigEndianRoundTrip(v: nat, width: nat)
    requires v < Pow(256, width)
    ensures FromBigEndian(BigEndian(v, width)) == v
  {
    if width == 0 {
    } else {
      var front := BigEndian(v / 256, width - 1);
      assert BigEndian(v, width)[..width - 1] == front;
      BigEndianRoundTrip(v / 256, width - 1);
    }
  }

  lemma {:induction false} FromBigEndianRoundTrip(b: Bytes)
    ensures FromBigEndian(b) < Pow(256, |b|)
    ensures BigEndian(FromBigEndian(b), |b|) == b
  {
    if b == [] {
    } else {
      var front := b[..|b| - 1];
      FromBigEndianRoundTrip(front);
      ModUnique(FromBigEndian(b), FromBigEndian(front), b[|b| - 1], 256);
      assert front + [b[|b| - 1]] == b;
    }
  }

  /** Octet i of an encoding is the value shifted right by the octets below it. */
  lemma {:induction false} BigEndianAt(v: nat, width: nat, i: nat)
    requires i < width
    ensures Pow(256, width - 1 - i) > 0
    ensures BigEndian(v, width)[i] == v / Pow(256, width - 1 - i) % 256
  {
    PowPositive(256, width - 1 - i);
    if i == width - 1 {
    } else {
      BigEndianAt(v / 256, width - 1, i);
      var d := Pow(256, width - 2 - i);
      PowPositive(256, width - 2 - i);
      assert Pow(256, width - 1 - i) == 256 * d;
      DivDiv(v, d);
    }
  }

  lemma DivDiv(v: nat, d: nat)
    requires d > 0
    ensures v / 256 / d == v / (256 * d)
  {
    var q := v / 256;
    var q2, r2 := q / d, q % d;
    assert q == q2 * d + r2;
    ModUnique(v, q2, r2 * 256 + v % 256, 256 * d);
  }

  lemma BigEndianInjective(v: nat, w: nat, width: nat)
    requires v < Pow(256, width) && w < Pow(256, width)
    requires BigEndian(v, width) == BigEndian(w, width)
    ensures v == w
  {
    BigEndianRoundTrip(v, width);
    BigEndianRoundTrip(w, width);
  }

  const TWO_16: nat := 0x1_0000
  const TWO_32: nat := 0x1_0000_0000
  const TWO_64: nat := 0x1_0000_0000_0000_0000

  lemma Widths()
    ensures Pow(256, 2) == TWO_16
    ensures Pow(256, 4) == TWO_32
    ensures Pow(256, 8) == TWO_64
  {
    assert Pow(256, 2) == 256 * 256;
    PowAdd(256, 2, 2);
    PowAdd(256, 4, 4);
  }
}
