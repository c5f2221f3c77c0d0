/**
 * Finite-field Diffie-Hellman over group 14 of RFC 3526, with the hand-written
 * square-and-multiply exponentiation.
 */
module Dh {
  import opened Wrappers
  import opened Arith
  import opened ByteStrings

  // The modulus of RFC 3526 section 3, eleven lines of hexadecimal.
  const P_HEX: string :=
    "FFFFFFFFFFFFFFFFC90FDAA22168C234C4C6628B80DC1CD1" + P_HEX_TAIL

  const P_HEX_TAIL: string :=
    "29024E088A67CC74020BBEA63B139B22514A08798E3404DD" +
    "EF9519B3CD3A431B302B0A6DF25F14374FE1356D6D51C245" +
    "E485B576625E7EC6F44C42E9A637ED6B0BFF5CB6F406B7ED" +
    "EE386BFB5A899FA5AE9F24117C4B1FE649286651ECE45B3D" +
    "C2007CB8A163BF0598DA48361C55D39A69163FA8FD24CF5F" +
    "83655D23DCA3AD961C62F356208552BB9ED529077096966D" +
    "670C354E4ABC9804F1746C08CA18217C32905E462E36CE3B" +
    "E39E772C180E86039B2783A2EC07A28FB5C55DF06F4C52C9" +
    "DE2BCBF6955817183995497CEA956AE515D2261898FA0510" +
    "15728E5A8AACAA68FFFFFFFFFFFFFFFF"

  const GENERATOR: nat := 2
  const MODULUS_BYTES: nat := 256

  function HexDigit(c: char): (d: nat)
    ensures d < 16
  {
    if '0' <= c <= '9' then (c - '0') as int
    else if 'A' <= c <= 'F' then (c - 'A') as int + 10
    else 0
  }

  function HexValue(s: string): nat {
    if s == "" then 0 else HexValue(s[..|s| - 1]) * 16 + HexDigit(s[|s| - 1])
  }

  lemma {:induction false} HexValueBounds(s: string)
    requires s != ""
    ensures HexDigit(s[|s| - 1]) <= HexValue(s) < Pow(16, |s|)
    ensures HexValue(s) % 2 == HexDigit(s[|s| - 1]) % 2
  {
    var front := s[..|s| - 1];
    if front == "" {
    } else {
      HexValueBounds(front);
    }
  }

  /** The modulus p. */
  function Modulus(): nat {
    HexValue(P_HEX)
  }

  /** p fits MODULUS_BYTES octets, is odd, and is above the smallest values of the group. */
  lemma ModulusRange()
    ensures 15 <= Modulus() < Pow(256, MODULUS_BYTES) && Modulus() % 2 == 1
  {
    HexValueBounds(P_HEX);
    assert |P_HEX| == 512;
    assert P_HEX[511] == P_HEX_TAIL[463] == "15728E5A8AACAA68FFFFFFFFFFFFFFFF"[31] == 'F';
    PowMul(16, 2, MODULUS_BYTES);
    assert Pow(16, 2) == 256;
  }

  // ---------------------------------------------------------- exponentiation

  function NumBits(n: nat): nat {
    if n == 0 then 0 else 1 + NumBits(n / 2)
  }

  /** n without its i lowest bits. */
  function Prefix(n: nat, i: nat): nat {
    if i == 0 then n else Prefix(n, i - 1) / 2
  }

  predicate BitSet(n: nat, i: nat) {
    Prefix(n, i) % 2 == 1
  }

  lemma {:induction false} PrefixHalf(n: nat, i: nat)
    ensures Prefix(n / 2, i) == Prefix(n, i + 1)
  {
    if i == 0 {
    } else {
      PrefixHalf(n, i - 1);
    }
  }

  lemma {:induction false} NoPrefix(n: nat)
    ensures Prefix(n, NumBits(n)) == 0
  {
    if n == 0 {
    } else {
      NoPrefix(n / 2);
      PrefixHalf(n, NumBits(n / 2));
    }
  }

  lemma SquareStep(base: int, acc: int, k: nat, m: int)
    requires m > 0 && acc % m == Pow(base, k) % m
    ensures acc * acc % m == Pow(base, 2 * k) % m
    ensures acc * acc % m * (base % m) % m == Pow(base, 2 * k + 1) % m
  {
    ModMul(acc, acc, m);
    ModMul(Pow(base, k), Pow(base, k), m);
    PowAdd(base, k, k);
    assert acc * acc % m == Pow(base, 2 * k) % m;
    var sq := acc * acc % m;
    ModMul(Pow(base, 2 * k), base, m);
    assert Pow(base, 2 * k + 1) == Pow(base, 2 * k) * base;
  }

  /**
   * base^exp mod `mod` by square-and-multiply, most significant bit first.
   * A zero modulus is refused. Modulus 1 with exponent 0 is the one input on
   * which the answer is not the remainder: the accumulator is returned as 1.
   * `muls` counts the modular multiplications.
   */
  method ModExp(base: int, exp: nat, mod: nat) returns (result: Option<nat>, ghost muls: nat)
    ensures result.None? <==> mod == 0
    ensures mod > 0 ==> (result.value == Pow(base, exp) % mod <==> mod >= 2 || exp > 0)
    ensures mod == 1 && exp == 0 ==> result.value == 1
    ensures muls <= 2 * NumBits(exp)
  {
    muls := 0;
    if mod == 0 {
      return None, 0;
    }
    hide Pow, NumBits, BitSet, Prefix;
    var acc := 1;
    var b := base % mod;
    var i := NumBits(exp);
    NoPrefix(exp);
    PowZero(base);
    while i > 0
      invariant 0 <= i <= NumBits(exp)
      invariant acc % mod == Pow(base, Prefix(exp, i)) % mod
      invariant 0 <= acc && (if i == NumBits(exp) then acc == 1 else acc < mod)
      invariant muls <= 2 * (NumBits(exp) - i)
    {
      BitDone(base, exp, i, acc, mod);
      i := i - 1;
      acc := acc * acc % mod;
      muls := muls + 1;
      if BitSet(exp, i) {
        acc := acc * b % mod;
        muls := muls + 1;
      }
    }
    result := Some(acc);
    AllBits(exp);
    if mod >= 2 || exp > 0 {
      ModUnique(acc, 0, acc, mod);
    } else {
      assert Pow(base, exp) % 1 == 0;
    }
  }

  lemma PowZero(base: int)
    ensures Pow(base, 0) == 1
  {
  }

  lemma AllBits(exp: nat)
    ensures Prefix(exp, 0) == exp && (NumBits(exp) == 0 <==> exp == 0)
  {
  }

  /** One turn of the loop: the prefix of the exponent grows by one bit. */
  lemma BitDone(base: int, exp: nat, i: nat, acc: int, mod: nat)
    requires i > 0 && mod > 0
    requires acc % mod == Pow(base, Prefix(exp, i)) % mod
    ensures var sq := acc * acc % mod;
            var next := if BitSet(exp, i - 1) then sq * (base % mod) % mod else sq;
            0 <= next < mod && next % mod == Pow(base, Prefix(exp, i - 1)) % mod
  {
    var k := Prefix(exp, i - 1);
    assert Prefix(exp, i) == k / 2 && BitSet(exp, i - 1) == (k % 2 == 1);
    hide *;
    SquareStep(base, acc, k / 2, mod);
    ModRange(Pow(base, k), mod);
    ModIdempotent(Pow(base, k), mod);
  }

  lemma ModRange(n: int, m: nat)
    requires m > 0
    ensures 0 <= n % m < m
  {
  }

  // ---------------------------------------------------------------- key pairs

  /** g^x mod p, left-padded: what the owner of the private exponent x publishes. */
  function PublicBytes(x: nat): (r: Bytes)
    ensures |r| == MODULUS_BYTES
  {
    if Modulus() == 0 then BigEndian(0, MODULUS_BYTES)
    else BigEndian(Pow(GENERATOR, x) % Modulus(), MODULUS_BYTES)
  }

  /** Accepted public values: full width, above 1 and below p - 1. */
  predicate ValidPublic(y: Bytes) {
    |y| == MODULUS_BYTES && 1 < FromBigEndian(y) < Modulus() - 1
  }

  /** y^x mod p, left-padded, or None for a public value that is refused. */
  function SharedSecret(x: nat, y: Bytes): (r: Option<Bytes>)
    ensures r.Some? <==> ValidPublic(y)
    ensures r.Some? ==> |r.value| == MODULUS_BYTES
  {
    if ValidPublic(y) then Some(BigEndian(Pow(FromBigEndian(y), x) % Modulus(), MODULUS_BYTES))
    else None
  }

  /** A key pair as held between its generation and its use. */
  datatype Ephemeral = Ephemeral(priv: nat, pub: Bytes)

  class KeyPair {
    var priv: Option<nat>
    var pub: Bytes

    constructor ()
      ensures priv == None && pub == []
    {
      priv, pub := None, [];
    }

    /** Takes over a pair generated earlier (the source moves it out of its holder). */
    constructor Moved(e: Ephemeral)
      ensures priv == Some(e.priv) && pub == e.pub
    {
      priv, pub := Some(e.priv), e.pub;
    }

    /** Generation with the exponent that was drawn; None when drawing it failed, which publishes nothing. */
    method Generate(rnd: Option<nat>) returns (ok: bool)
      modifies this
      ensures ok <==> rnd.Some?
      ensures if ok then priv == rnd && pub == PublicBytes(rnd.value) else pub == old(pub)
    {
      ModulusRange();
      if rnd.None? {
        return false;
      }
      priv := rnd;
      var y, _ := ModExp(GENERATOR, rnd.value, Modulus());
      pub := BigEndian(y.value, MODULUS_BYTES);
      ok := true;
    }

    method ComputeShared(peerPub: Bytes) returns (secret: Option<Bytes>)
      ensures secret == (if priv.None? then None else SharedSecret(priv.value, peerPub))
    {
      if |peerPub| != MODULUS_BYTES {
        return None;
      }
      if priv.None? {
        return None;
      }
      ModulusRange();
      var y := FromBigEndian(peerPub);
      if !(y > 1 && y < Modulus() - 1) {
        return None;
      }
      var z, _ := ModExp(y, priv.value, Modulus());
      secret := Some(BigEndian(z.value, MODULUS_BYTES));
    }
  }

  lemma PublicValueBack(x: nat)
    ensures Modulus() > 0
    ensures FromBigEndian(PublicBytes(x)) == Pow(GENERATOR, x) % Modulus()
  {
    ModulusRange();
    BigEndianRoundTrip(Pow(GENERATOR, x) % Modulus(), MODULUS_BYTES);
  }

  /** The values a secret has in common with every exponent, or with every second one. */
  predicate Confined(r: int) {
    r == 0 || r == 1 || r == Modulus() - 1
  }

  lemma ConfinedTimes(r: int, v: int)
    requires Confined(r) && Confined(v) && Modulus() >= 15
    ensures Confined(r * v % Modulus())
  {
    var p := Modulus();
    hide Modulus;
    if r == 0 || v == 0 {
      ModUnique(r * v, 0, 0, p);
    } else if r == 1 {
      ModUnique(v, 0, v, p);
    } else if v == 1 {
      ModUnique(r, 0, r, p);
    } else {
      SquareOfLast(p);
    }
  }

  lemma SquareOfLast(p: nat)
    requires p >= 2
    ensures (p - 1) * (p - 1) % p == 1
  {
    var q := p - 2;
    assert (p - 1) * (p - 1) == q * p + 1;
    ModUnique((p - 1) * (p - 1), q, 1, p);
  }

  lemma {:induction false} PowConfined(v: int, x: nat)
    requires Confined(v) && Modulus() >= 15
    ensures Confined(Pow(v, x) % Modulus())
  {
    var p := Modulus();
    if x == 0 {
      ModUnique(1, 0, 1, p);
    } else {
      PowConfined(v, x - 1);
      ModMul(v, Pow(v, x - 1), p);
      ModUnique(v, 0, v, p);
      ConfinedTimes(v, Pow(v, x - 1) % p);
      hide Confined, Modulus;
      ModMulRight(v, Pow(v, x - 1), p);
    }
  }

  lemma ModMulRight(a: int, b: int, m: nat)
    requires m > 0
    ensures a * b % m == a * (b % m) % m
  {
    ModMul(a, b, m);
    ModMul(a, b % m, m);
    ModIdempotent(b, m);
  }

  /** The remainder of v^x. */
  function Power(v: int, x: nat): int
    requires Modulus() > 0
  {
    Pow(v, x) % Modulus()
  }

  lemma SmallValues(y: Bytes)
    ensures |y| != MODULUS_BYTES || FromBigEndian(y) >= Modulus() ==> !ValidPublic(y)
    ensures |y| == MODULUS_BYTES && FromBigEndian(y) < Modulus() ==> (!ValidPublic(y) <==> Confined(FromBigEndian(y)))
  {
    hide FromBigEndian, Modulus;
  }

  lemma FirstPower(v: nat)
    requires v < Modulus()
    ensures Power(v, 1) == v
  {
    assert Pow(v, 1) == v * Pow(v, 0) == v;
    ModUnique(v, 0, v, Modulus());
  }

  /**
   * Of the values of full width below the modulus exactly those are refused with
   * which no exponent leads out of 0, 1 and p - 1; all others are refused anyway.
   */
  lemma RefusedIffConfined(y: Bytes)
    ensures Modulus() > 0
    ensures |y| != MODULUS_BYTES || FromBigEndian(y) >= Modulus() ==> !ValidPublic(y)
    ensures |y| == MODULUS_BYTES && FromBigEndian(y) < Modulus() ==>
              (!ValidPublic(y) <==> forall x: nat :: Confined(Power(FromBigEndian(y), x)))
  {
    ModulusRange();
    SmallValues(y);
    var v := FromBigEndian(y);
    if |y| == MODULUS_BYTES && v < Modulus() {
      FirstPower(v);
      forall x: nat | Confined(v) ensures Confined(Power(v, x)) {
        PowConfined(v, x);
      }
      hide FromBigEndian, Modulus, Confined, ValidPublic, Power;
      assert !Confined(v) ==> !Confined(Power(v, 1));
    }
  }

  const PRIV_BITS: nat := 256

  /** The exponents a key pair is generated with: the top one of PRIV_BITS bits is set. */
  predicate FullWidth(x: nat) {
    Pow(2, PRIV_BITS - 1) <= x < Pow(2, PRIV_BITS)
  }

  /** The public value of exponent n, as a number. */
  function Residue(n: nat): int {
    if Modulus() == 0 then 0 else Pow(GENERATOR, n) % Modulus()
  }

  lemma ResidueDoubles(n: nat)
    ensures var r := Residue(n);
            0 <= r < Modulus() && Residue(n + 1) == (if 2 * r < Modulus() then 2 * r else 2 * r - Modulus())
  {
    ModulusRange();
    var p := Modulus();
    var w := Pow(GENERATOR, n);
    assert Pow(GENERATOR, n + 1) == w * GENERATOR;
    ModMul(w, GENERATOR, p);
    ModUnique(GENERATOR, 0, GENERATOR, p);
    ModRange(w, p);
    var r := w % p;
    if 2 * r < p {
      ModUnique(r * GENERATOR, 0, 2 * r, p);
    } else {
      ModUnique(r * GENERATOR, 1, 2 * r - p, p);
    }
  }

  /** An odd modulus never divides a power of two. */
  lemma {:induction false} ResidueNotZero(n: nat)
    ensures 1 <= Residue(n) < Modulus()
  {
    ModulusRange();
    if n == 0 {
      ModUnique(1, 0, 1, Modulus());
    } else {
      hide Residue, Pow, Modulus;
      ResidueNotZero(n - 1);
      ResidueDoubles(n - 1);
    }
  }

  lemma ValidResidue(n: nat)
    ensures ValidPublic(PublicBytes(n)) <==> 1 < Residue(n) < Modulus() - 1
    ensures FromBigEndian(PublicBytes(n)) == Residue(n)
  {
    ModulusRange();
    PublicValueBack(n);
  }

  /** Among any four exponents in a row there are two neighbours whose public values pass the range check and differ. */
  lemma Neighbours(n: nat) returns (m: nat)
    ensures n <= m <= n + 2
    ensures ValidPublic(PublicBytes(m)) && ValidPublic(PublicBytes(m + 1)) && PublicBytes(m) != PublicBytes(m + 1)
  {
    hide *;
    ModulusRange();
    forall i | n <= i <= n + 3 ensures 1 <= Residue(i) < Modulus()
                                 && (ValidPublic(PublicBytes(i)) <==> 1 < Residue(i) < Modulus() - 1)
                                 && FromBigEndian(PublicBytes(i)) == Residue(i)
    {
      ResidueNotZero(i);
      ValidResidue(i);
    }
    ResidueDoubles(n);
    ResidueDoubles(n + 1);
    ResidueDoubles(n + 2);
    m := if !(1 < Residue(n) < Modulus() - 1) then n + 1
         else if !(1 < Residue(n + 1) < Modulus() - 1) then n + 2
         else n;
  }

  /** There are exponents of full width whose public values pass the range check and differ. */
  lemma HonestExponents() returns (x: nat, y: nat)
    ensures FullWidth(x) && FullWidth(y)
    ensures ValidPublic(PublicBytes(x)) && ValidPublic(PublicBytes(y)) && PublicBytes(x) != PublicBytes(y)
  {
    var n: nat := PRIV_BITS - 1;
    assert n == 255;
    hide *;
    PowAbove(n);
    PowDoubles(n);
    x := Neighbours(Pow(2, n));
    y := x + 1;
    InWidth(x);
    InWidth(y);
  }

  lemma PowDoubles(n: nat)
    ensures Pow(2, n + 1) == 2 * Pow(2, n)
  {
  }

  lemma InWidth(x: nat)
    requires Pow(2, PRIV_BITS - 1) <= x < 2 * Pow(2, PRIV_BITS - 1)
    ensures FullWidth(x)
  {
    PowDoubles(PRIV_BITS - 1);
  }

  lemma {:induction false} PowAbove(n: nat)
    ensures Pow(2, n) > n
  {
    if n == 0 {
    } else {
      PowAbove(n - 1);
    }
  }

  /**
   * Diffie-Hellman agreement on the wire: two parties whose public values pass
   * the range check serialise the identical 256-octet secret.
   */
  lemma Agreement(x: nat, y: nat)
    ensures ValidPublic(PublicBytes(x)) && ValidPublic(PublicBytes(y)) ==>
              && SharedSecret(x, PublicBytes(y)).Some?
              && SharedSecret(x, PublicBytes(y)) == SharedSecret(y, PublicBytes(x))
  {
    var p := Modulus();
    PublicValueBack(x);
    PublicValueBack(y);
    calc {
      Pow(Pow(GENERATOR, y) % p, x) % p;
      { PowMod(Pow(GENERATOR, y), x, p); }
      Pow(Pow(GENERATOR, y), x) % p;
      { PowMul(GENERATOR, y, x); }
      Pow(GENERATOR, y * x) % p;
      { assert y * x == x * y; }
      Pow(GENERATOR, x * y) % p;
      { PowMul(GENERATOR, x, y); }
      Pow(Pow(GENERATOR, x), y) % p;
      { PowMod(Pow(GENERATOR, x), y, p); }
      Pow(Pow(GENERATOR, x) % p, y) % p;
    }
  }
}
