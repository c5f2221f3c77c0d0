/**
 * Every hash the protocol computes, in both layers. The octets hashed determine
 * which derivation they are for and all of its arguments, although neither the
 * certificate nor the secrets are length-prefixed.
 */
module HashInputs {
  import opened ByteStrings
  import opened Crypto
  import opened Protocol
  import Dh
  import E2e
  import Session

  datatype Derivation =
    | TranscriptOf(random: Bytes, cert: Bytes, serverPub: Bytes, clientPub: Bytes)
    | ClientKey(z: Bytes, th: seq<Octet>)
    | ServerKey(z: Bytes, th: seq<Octet>)
    | SessionSalt(z: Bytes, th: seq<Octet>)
    | SessionPrint(z: Bytes, th: seq<Octet>)
    | EpochKey(epoch: nat, byA: bool, z: Bytes)
    | EpochSalt(epoch: nat, z: Bytes)
    | EpochPrint(epoch: nat, z: Bytes)

  /** The fixed field sizes; a certificate may have any length. */
  predicate Sized(d: Derivation) {
    match d
    case TranscriptOf(r, _, s, c) => |r| == CLIENT_RANDOM_LEN && |s| == |c| == Dh.MODULUS_BYTES
    case EpochKey(n, _, z) => n < TWO_32 && |z| == Dh.MODULUS_BYTES
    case EpochSalt(n, z) => n < TWO_32 && |z| == Dh.MODULUS_BYTES
    case EpochPrint(n, z) => n < TWO_32 && |z| == Dh.MODULUS_BYTES
    case _ => |d.z| == Dh.MODULUS_BYTES && |d.th| == 32
  }

  function Direction(byA: bool): string {
    if byA then "|a2b|" else "|b2a|"
  }

  function InputOf(d: Derivation): seq<Octet> {
    match d
    case TranscriptOf(r, c, s, p) => Lits(Session.Transcript(VERSION, r, c, s, p))
    case ClientKey(z, th) => Session.Labelled(Session.C2S_LABEL, z, th)
    case ServerKey(z, th) => Session.Labelled(Session.S2C_LABEL, z, th)
    case SessionSalt(z, th) => Session.Labelled(Session.SALT_LABEL, z, th)
    case SessionPrint(z, th) => Session.Labelled(Session.FP_LABEL, z, th)
    case EpochKey(n, byA, z) => E2e.KeyInput(n, Direction(byA), z)
    case EpochSalt(n, z) => E2e.SaltInput(n, z)
    case EpochPrint(n, z) => E2e.FpInput(n, z)
  }

  /** The octets at the places where the labels differ from each other. */
  function Marks(input: seq<Octet>): (Octet, Octet, Octet, Octet, Octet)
    requires |input| > 19
  {
    (input[0], input[8], input[10], input[14], input[19])
  }

  function Ord(c: char): Octet {
    Lit(c as int % 256)
  }

  lemma MarksOf(d: Derivation)
    requires Sized(d)
    ensures |InputOf(d)| > 19
    ensures var (m0, m8, m10, m14, m19) := Marks(InputOf(d));
            match d
            case TranscriptOf(_, _, _, _) => m0 == Lit(5)
            case ClientKey(_, _) => m0 == Ord('C') && m8 == Ord('2') && m10 == Ord('K') && m14 == Ord('c')
            case ServerKey(_, _) => m0 == Ord('C') && m8 == Ord('2') && m10 == Ord('K') && m14 == Ord('s')
            case SessionSalt(_, _) => m0 == Ord('C') && m8 == Ord('2') && m10 == Ord('S')
            case SessionPrint(_, _) => m0 == Ord('C') && m8 == Ord('2') && m10 == Ord('F')
            case EpochKey(_, byA, _) =>
              m0 == Ord('C') && m8 == Ord('4') && m10 == Ord('K') && m19 == Ord(if byA then 'a' else 'b')
            case EpochSalt(_, _) => m0 == Ord('C') && m8 == Ord('4') && m10 == Ord('S')
            case EpochPrint(_, _) => m0 == Ord('C') && m8 == Ord('4') && m10 == Ord('F')
  {
  }

  /** The same octets can only come from the same derivation with the same arguments. */
  lemma InputsDetermine(d: Derivation, e: Derivation)
    requires Sized(d) && Sized(e) && InputOf(d) == InputOf(e)
    ensures d == e
  {
    hide Session.Transcript, Session.Labelled, E2e.KeyInput, E2e.SaltInput, E2e.FpInput;
    MarksOf(d);
    MarksOf(e);
    match d
    case TranscriptOf(r, c, s, p) =>
      LitsInjective(Session.Transcript(VERSION, r, c, s, p),
                    Session.Transcript(VERSION, e.random, e.cert, e.serverPub, e.clientPub));
      TranscriptInjective(VERSION, r, c, s, p, VERSION, e.random, e.cert, e.serverPub, e.clientPub);
    case ClientKey(z, th) => LabelledInjective(Session.C2S_LABEL, z, th, e.z, e.th);
    case ServerKey(z, th) => LabelledInjective(Session.S2C_LABEL, z, th, e.z, e.th);
    case SessionSalt(z, th) => LabelledInjective(Session.SALT_LABEL, z, th, e.z, e.th);
    case SessionPrint(z, th) => LabelledInjective(Session.FP_LABEL, z, th, e.z, e.th);
    case EpochKey(n, byA, z) => KeyInputInjective(n, byA, z, e.epoch, e.z);
    case EpochSalt(n, z) => SaltInputInjective(n, z, e.epoch, e.z);
    case EpochPrint(n, z) => FpInputInjective(n, z, e.epoch, e.z);
  }

  lemma KeyInputInjective(n: nat, byA: bool, z: Bytes, n': nat, z': Bytes)
    requires n < TWO_32 && n' < TWO_32
    requires E2e.KeyInput(n, Direction(byA), z) == E2e.KeyInput(n', Direction(byA), z')
    ensures n == n' && z == z'
  {
    var d := Ascii(Direction(byA));
    KeyInputParts(n, byA, z);
    KeyInputParts(n', byA, z');
    EpochFields(Ascii(E2e.KEY_LABEL), n, d + z, n', d + z');
    assert (d + z)[5..] == z && (d + z')[5..] == z';
  }

  lemma SaltInputInjective(n: nat, z: Bytes, n': nat, z': Bytes)
    requires n < TWO_32 && n' < TWO_32 && E2e.SaltInput(n, z) == E2e.SaltInput(n', z')
    ensures n == n' && z == z'
  {
    EpochFields(Ascii(E2e.SALT_LABEL), n, z, n', z');
  }

  lemma FpInputInjective(n: nat, z: Bytes, n': nat, z': Bytes)
    requires n < TWO_32 && n' < TWO_32 && E2e.FpInput(n, z) == E2e.FpInput(n', z')
    ensures n == n' && z == z'
  {
    EpochFields(Ascii(E2e.FP_LABEL), n, z, n', z');
  }

  lemma KeyInputParts(n: nat, byA: bool, z: Bytes)
    ensures E2e.KeyInput(n, Direction(byA), z)
         == Lits(Ascii(E2e.KEY_LABEL) + BigEndian(n, 4) + (Ascii(Direction(byA)) + z))
  {
    var k, b, d := Ascii(E2e.KEY_LABEL), BigEndian(n, 4), Ascii(Direction(byA));
    assert k + b + d + z == k + b + (d + z);
  }

  lemma TranscriptInjective(v: Byte, r: Bytes, c: Bytes, s: Bytes, p: Bytes,
                            v': Byte, r': Bytes, c': Bytes, s': Bytes, p': Bytes)
    requires |r| == |r'| == CLIENT_RANDOM_LEN && |s| == |s'| == |p| == |p'| == Dh.MODULUS_BYTES
    requires Session.Transcript(v, r, c, s, p) == Session.Transcript(v', r', c', s', p')
    ensures v == v' && r == r' && c == c' && s == s' && p == p'
  {
    var t, t' := Session.Transcript(v, r, c, s, p), Session.Transcript(v', r', c', s', p');
    var n := |c|;
    assert |t| == 545 + n && |t'| == 545 + |c'|;
    assert t[0] == v && t'[0] == v';
    assert t[1..33] == r && t'[1..33] == r';
    assert t[33..33 + n] == c && t'[33..33 + n] == c';
    assert t[33 + n..289 + n] == s && t'[33 + n..289 + n] == s';
    assert t[289 + n..] == p && t'[289 + n..] == p';
  }

  /** The signed octets determine the version, the nonce, the certificate and the server's value. */
  lemma ProofInjective(v: Byte, r: Bytes, c: Bytes, s: Bytes, v': Byte, r': Bytes, c': Bytes, s': Bytes)
    requires |r| == |r'| == CLIENT_RANDOM_LEN && |s| == |s'| == Dh.MODULUS_BYTES
    requires Session.ProofTranscript(v, r, c, s) == Session.ProofTranscript(v', r', c', s')
    ensures v == v' && r == r' && c == c' && s == s'
  {
    var t, t' := Session.ProofTranscript(v, r, c, s), Session.ProofTranscript(v', r', c', s');
    var n := |c|;
    assert |t| == 289 + n && |t'| == 289 + |c'|;
    assert t[0] == v && t'[0] == v';
    assert t[1..33] == r && t'[1..33] == r';
    assert t[33..33 + n] == c && t'[33..33 + n] == c';
    assert t[33 + n..] == s && t'[33 + n..] == s';
  }

  lemma LabelledInjective(tag: string, z: Bytes, th: seq<Octet>, z': Bytes, th': seq<Octet>)
    requires |z| == |z'|
    requires Session.Labelled(tag, z, th) == Session.Labelled(tag, z', th')
    ensures z == z' && th == th'
  {
    var x, y := Session.Labelled(tag, z, th), Session.Labelled(tag, z', th');
    assert x[|tag|..][..|z|] == Lits(z) && y[|tag|..][..|z|] == Lits(z');
    assert x[|tag| + |z|..] == th && y[|tag| + |z|..] == th';
    LitsInjective(z, z');
  }

  lemma EpochFields(tag: Bytes, n: nat, rest: Bytes, n': nat, rest': Bytes)
    requires n < TWO_32 && n' < TWO_32
    requires Lits(tag + BigEndian(n, 4) + rest) == Lits(tag + BigEndian(n', 4) + rest')
    ensures n == n' && rest == rest'
  {
    var x, y := tag + BigEndian(n, 4) + rest, tag + BigEndian(n', 4) + rest';
    LitsInjective(x, y);
    assert x[|tag|..][..4] == BigEndian(n, 4) && y[|tag|..][..4] == BigEndian(n', 4);
    assert x[|tag|..][4..] == rest && y[|tag|..][4..] == rest';
    Widths();
    BigEndianInjective(n, n', 4);
  }

  /** Digests, or first octets of them, coincide only for the same derivation with the same arguments. */
  lemma DigestsDetermine(d: Derivation, e: Derivation, n: nat)
    requires Sized(d) && Sized(e) && 1 <= n <= 32 && Sha256(InputOf(d))[..n] == Sha256(InputOf(e))[..n]
    ensures d == e
  {
    Sha256Injective(InputOf(d), InputOf(e), n);
    InputsDetermine(d, e);
  }

  /** Any one of the values derived for an epoch, also its salt or its fingerprint, determines epoch and secret. */
  lemma EpochPartsDiffer(n: nat, z: Bytes, n': nat, z': Bytes)
    requires n < TWO_32 && n' < TWO_32 && |z| == |z'| == Dh.MODULUS_BYTES && (n != n' || z != z')
    ensures var e, e' := E2e.Derive(n, z), E2e.Derive(n', z');
            e.fp != e'.fp && e.salt != e'.salt && e.kA2b != e'.kA2b && e.kB2a != e'.kB2a
  {
    hide InputOf, Sized;
    EpochDigests(n, z);
    EpochDigests(n', z');
    if E2e.Derive(n, z).fp == E2e.Derive(n', z').fp {
      DigestsDetermine(EpochPrint(n, z), EpochPrint(n', z'), 8);
    }
    if E2e.Derive(n, z).salt == E2e.Derive(n', z').salt {
      DigestsDetermine(EpochSalt(n, z), EpochSalt(n', z'), SALT_LEN);
    }
    if E2e.Derive(n, z).kA2b == E2e.Derive(n', z').kA2b {
      DigestsDetermine(EpochKey(n, true, z), EpochKey(n', true, z'), 32);
    }
    if E2e.Derive(n, z).kB2a == E2e.Derive(n', z').kB2a {
      DigestsDetermine(EpochKey(n, false, z), EpochKey(n', false, z'), 32);
    }
  }

  lemma EpochDigests(n: nat, z: Bytes)
    requires n < TWO_32 && |z| == Dh.MODULUS_BYTES
    ensures Sized(EpochPrint(n, z)) && Sized(EpochSalt(n, z)) && Sized(EpochKey(n, true, z)) && Sized(EpochKey(n, false, z))
    ensures var e := E2e.Derive(n, z);
            && e.fp == Sha256(InputOf(EpochPrint(n, z)))[..8] && e.salt == Sha256(InputOf(EpochSalt(n, z)))[..SALT_LEN]
            && e.kA2b == Sha256(InputOf(EpochKey(n, true, z)))[..32]
            && e.kB2a == Sha256(InputOf(EpochKey(n, false, z)))[..32]
  {
    hide E2e.KeyInput, E2e.SaltInput, E2e.FpInput;
  }

  /** Sealing keys coincide only for the same epoch number, direction and shared secret. */
  lemma EpochKeysDiffer(n: nat, z: Bytes, byA: bool, n': nat, z': Bytes, byA': bool)
    requires n < TWO_32 && n' < TWO_32 && |z| == |z'| == Dh.MODULUS_BYTES
    requires E2e.SealKey(E2e.Derive(n, z), byA) == E2e.SealKey(E2e.Derive(n', z'), byA')
    ensures n == n' && z == z' && byA == byA'
  {
    var d, e := EpochKey(n, byA, z), EpochKey(n', byA', z');
    assert E2e.SealKey(E2e.Derive(n, z), byA) == Sha256(InputOf(d));
    assert E2e.SealKey(E2e.Derive(n', z'), byA') == Sha256(InputOf(e));
    assert Sha256(InputOf(d))[..32] == Sha256(InputOf(e))[..32];
    Sha256Injective(InputOf(d), InputOf(e), 32);
    InputsDetermine(d, e);
  }
}
