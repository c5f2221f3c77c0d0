/**
 * The cryptographic primitives as symbolic terms. A digest is known only by
 * the octets that were hashed, a ciphertext only by what was sealed into it,
 * so equal outputs mean equal inputs.
 */
module Crypto {
  import opened Wrappers
  import opened ByteStrings

  const KEY_LEN: nat := 32
  const NONCE_LEN: nat := 12
  const TAG_LEN: nat := 16
  const SALT_LEN: nat := 4

  /** An octet that is either literal or the i-th octet of a SHA-256 digest. */
  datatype Octet = Lit(b: Byte) | OfDigest(input: seq<Octet>, i: nat)

  type Key = seq<Octet>
  type Salt = seq<Octet>
  type Nonce = seq<Octet>

  function Lits(b: Bytes): (r: seq<Octet>)
    ensures |r| == |b|
    ensures forall i :: 0 <= i < |b| ==> r[i] == Lit(b[i])
  {
    seq(|b|, i requires 0 <= i < |b| => Lit(b[i]))
  }

  /** The octets of a label or a tag, one per character. */
  function Ascii(s: string): (r: Bytes)
    ensures |r| == |s|
    ensures forall i :: 0 <= i < |s| ==> r[i] == s[i] as int % 256
  {
    seq(|s|, i requires 0 <= i < |s| => s[i] as int % 256)
  }

  function Zeros(n: nat): (r: seq<Octet>)
    ensures |r| == n
  {
    seq(n, i => Lit(0))
  }

  function Sha256(input: seq<Octet>): (digest: seq<Octet>)
    ensures |digest| == 32
    ensures forall i :: 0 <= i < 32 ==> digest[i] == OfDigest(input, i)
  {
    seq(32, (i: nat) => OfDigest(input, i))
  }

  lemma LitsInjective(a: Bytes, b: Bytes)
    requires Lits(a) == Lits(b)
    ensures a == b
  {
    assert |a| == |b|;
    forall i | 0 <= i < |a| ensures a[i] == b[i] {
      assert Lits(a)[i] == Lits(b)[i];
    }
  }

  lemma LitsAppend(b: Bytes, i: nat)
    requires i < |b|
    ensures Lits(b[..i + 1]) == Lits(b[..i]) + [Lit(b[i])]
  {
  }

  /** A shared first octet already forces the two hash inputs to be the same. */
  lemma Sha256Injective(x: seq<Octet>, y: seq<Octet>, n: nat)
    requires 1 <= n <= 32
    requires Sha256(x)[..n] == Sha256(y)[..n]
    ensures x == y
  {
    assert Sha256(x)[..n][0] == OfDigest(x, 0);
    assert Sha256(y)[..n][0] == OfDigest(y, 0);
  }

  // -------------------------------------------------------------------- nonces

  /** salt(4) || seq(8, big-endian); the counter is 64 bits wide. */
  function NonceOf(salt: Salt, n: nat): Nonce {
    salt + Lits(BigEndian(n % TWO_64, 8))
  }

  lemma Sized(n: nat)
    ensures n % TWO_64 < Arith.Pow(256, 8)
  {
    Widths();
  }

  /** Two counters give the same nonce exactly when they agree modulo 2^64. */
  lemma NonceRepeats(salt: Salt, m: nat, n: nat)
    ensures NonceOf(salt, m) == NonceOf(salt, n) <==> m % TWO_64 == n % TWO_64
  {
    if NonceOf(salt, m) == NonceOf(salt, n) {
      assert NonceOf(salt, m)[|salt|..] == Lits(BigEndian(m % TWO_64, 8));
      assert NonceOf(salt, n)[|salt|..] == Lits(BigEndian(n % TWO_64, 8));
      LitsInjective(BigEndian(m % TWO_64, 8), BigEndian(n % TWO_64, 8));
      Sized(m);
      Sized(n);
      BigEndianInjective(m % TWO_64, n % TWO_64, 8);
    }
  }

  /** Octet i of the counter part is the counter shifted right by the octets after it. */
  lemma NonceLayout(salt: Salt, n: nat, i: nat)
    requires |salt| == SALT_LEN && n < TWO_64 && i < 8
    ensures Arith.Pow(256, 7 - i) > 0
    ensures var nonce := NonceOf(salt, n);
            |nonce| == 12 && nonce[..4] == salt && nonce[4 + i] == Lit(n / Arith.Pow(256, 7 - i) % 256)
  {
    hide BigEndian, Arith.Pow;
    BigEndianAt(n, 8, i);
    assert n % TWO_64 == n;
  }

  /** The nonce is filled in octet by octet, most significant counter octet first. */
  method MakeNonce(salt: Salt, n: nat) returns (nonce: Nonce)
    requires |salt| == SALT_LEN && n < TWO_64
    ensures nonce == NonceOf(salt, n) && |nonce| == NONCE_LEN
  {
    hide BigEndian, Arith.Pow;
    nonce := salt;
    var i := 0;
    while i < 8
      invariant 0 <= i <= 8
      invariant nonce == salt + Lits(BigEndian(n, 8)[..i])
    {
      BigEndianAt(n, 8, i);
      LitsAppend(BigEndian(n, 8), i);
      nonce := nonce + [Lit(n / Arith.Pow(256, 7 - i) % 256)];
      i := i + 1;
    }
    assert BigEndian(n, 8)[..8] == BigEndian(n, 8);
  }

  // ---------------------------------------------------------------------- AEAD

  /** What travels as ciphertext: a sealed record, or octets nobody sealed. */
  datatype Cipher =
    | Sealed(key: Key, nonce: Nonce, seqNo: nat, plaintext: string)
    | Foreign(octets: Bytes)
  {
    /** Octets on the wire: the plaintext's length plus the tag. */
    function Length(): nat {
      match this
      case Sealed(_, _, _, p) => |p| + TAG_LEN
      case Foreign(o) => |o|
    }
  }

  /** Authenticated decryption under exactly this key, nonce and sequence number. */
  function Open(key: Key, nonce: Nonce, n: nat, c: Cipher): Option<string> {
    if c.Sealed? && c.key == key && c.nonce == nonce && c.seqNo == n then Some(c.plaintext) else None
  }

  /** How ciphertexts are laid out as octets: what is written for one, and what octets are read as. */
  datatype Codec = Codec(write: Cipher -> Bytes, read: Bytes -> Cipher)

  /** This ciphertext survives the layout, at its own length. */
  predicate Carries(codec: Codec, c: Cipher) {
    |codec.write(c)| == c.Length() && codec.read(codec.write(c)) == c
  }

  /** For every ciphertext there is a layout it survives. */
  lemma SomeCodec(c: Cipher)
    ensures exists codec :: Carries(codec, c)
  {
    var octets: Bytes := seq(c.Length(), i => 0);
    var codec := Codec(d => octets, b => c);
    assert Carries(codec, c);
  }
}
