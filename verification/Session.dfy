/**
 * Record encryption between a client and the server: two implicit counters per
 * endpoint and one key per direction.
 */
module Session {
  import opened Wrappers
  import opened ByteStrings
  import opened Crypto

  datatype Role = Client | Server

  datatype Keys = Keys(c2s: Key, salt: Salt, s2c: Key, fingerprint: seq<Octet>)

  const C2S_LABEL: string := "CS6008-P2-KEY|c2s|"
  const S2C_LABEL: string := "CS6008-P2-KEY|s2c|"
  const SALT_LABEL: string := "CS6008-P2-SALT|"
  const FP_LABEL: string := "CS6008-P2-FP|"

  function BlankKeys(): Keys {
    Keys(Zeros(KEY_LEN), Zeros(SALT_LEN), Zeros(KEY_LEN), [])
  }

  // -------------------------------------------------------------- key schedule

  /** version || client_random || cert || server_pub || client_pub, with no length prefixes. */
  function Transcript(version: Byte, random: Bytes, cert: Bytes, serverPub: Bytes, clientPub: Bytes): Bytes {
    [version] + random + cert + serverPub + clientPub
  }

  /** The octets the server signs: the transcript as far as it is known by then. */
  function ProofTranscript(version: Byte, random: Bytes, cert: Bytes, serverPub: Bytes): Bytes {
    [version] + random + cert + serverPub
  }

  function TranscriptHash(version: Byte, random: Bytes, cert: Bytes, serverPub: Bytes, clientPub: Bytes): seq<Octet> {
    Sha256(Lits(Transcript(version, random, cert, serverPub, clientPub)))
  }

  function Labelled(tag: string, z: Bytes, th: seq<Octet>): seq<Octet> {
    Lits(Ascii(tag)) + Lits(z) + th
  }

  function DeriveKeys(z: Bytes, th: seq<Octet>): Keys {
    Keys(Sha256(Labelled(C2S_LABEL, z, th)),
         Sha256(Labelled(SALT_LABEL, z, th))[..SALT_LEN],
         Sha256(Labelled(S2C_LABEL, z, th)),
         Sha256(Labelled(FP_LABEL, z, th))[..8])
  }

  /** A record sealed in one direction never verifies in the other. */
  lemma DirectionsDiffer(z: Bytes, th: seq<Octet>)
    ensures DeriveKeys(z, th).c2s != DeriveKeys(z, th).s2c
  {
    var x, y := Labelled(C2S_LABEL, z, th), Labelled(S2C_LABEL, z, th);
    assert x[14] == Lit('c' as int) && y[14] == Lit('s' as int);
    if Sha256(x) == Sha256(y) {
      assert Sha256(x)[..32] == Sha256(y)[..32];
      Sha256Injective(x, y, 32);
    }
  }

  // ------------------------------------------------------------------ endpoints

  datatype Endpoint = Endpoint(keys: Keys, role: Role, up: bool, tx: nat, rx: nat)

  function SendKey(e: Endpoint): Key {
    if e.role == Client then e.keys.c2s else e.keys.s2c
  }

  function ReceiveKey(e: Endpoint): Key {
    if e.role == Client then e.keys.s2c else e.keys.c2s
  }

  /** The client seals under the key labelled c2s and the server under the one labelled s2c, each opening the other's. */
  lemma DirectionKeys(e: Endpoint, z: Bytes, th: seq<Octet>)
    requires e.keys == DeriveKeys(z, th)
    ensures var c2s, s2c := Sha256(Labelled("CS6008-P2-KEY|c2s|", z, th)), Sha256(Labelled("CS6008-P2-KEY|s2c|", z, th));
            && (e.role == Client ==> SendKey(e) == c2s && ReceiveKey(e) == s2c)
            && (e.role == Server ==> SendKey(e) == s2c && ReceiveKey(e) == c2s)
  {
  }

  /** The n-th record this endpoint seals, as a term. */
  function RecordNo(e: Endpoint, n: nat, text: string): Cipher {
    Sealed(SendKey(e), NonceOf(e.keys.salt, n), n, text)
  }

  function SealNext(e: Endpoint, text: string): (Endpoint, Option<Cipher>) {
    if !e.up then (e, None) else (e.(tx := (e.tx + 1) % TWO_64), Some(RecordNo(e, e.tx, text)))
  }

  function OpenNext(e: Endpoint, c: Cipher): (Endpoint, Option<string>) {
    if !e.up then (e, None)
    else
      match Open(ReceiveKey(e), NonceOf(e.keys.salt, e.rx), e.rx, c)
      case None => (e, None)
      case Some(text) => (e.(rx := (e.rx + 1) % TWO_64), Some(text))
  }

  class Session {
    var keys: Keys
    var role: Role
    var up: bool
    var tx: nat
    var rx: nat

    function View(): Endpoint
      reads this
    {
      Endpoint(keys, role, up, tx, rx)
    }

    constructor ()
      ensures View() == Endpoint(BlankKeys(), Client, false, 0, 0)
    {
      keys, role, up, tx, rx := BlankKeys(), Client, false, 0, 0;
    }

    method Install(k: Keys, r: Role)
      modifies this
      ensures View() == Endpoint(k, r, true, 0, 0)
    {
      keys := k;
      role := r;
      up := true;
      tx := 0;
      rx := 0;
    }

    method Seal(text: string) returns (record: Option<Cipher>)
      modifies this
      ensures (View(), record) == SealNext(old(View()), text)
    {
      if !up {
        return None;
      }
      var k := if role == Client then keys.c2s else keys.s2c;
      record := Some(Sealed(k, NonceOf(keys.salt, tx), tx, text));
      tx := (tx + 1) % TWO_64;
    }

    method Open(c: Cipher) returns (text: Option<string>)
      modifies this
      ensures (View(), text) == OpenNext(old(View()), c)
      ensures text.None? ==> View() == old(View())
    {
      if !up {
        return None;
      }
      var k := if role == Client then keys.s2c else keys.c2s;
      text := Crypto.Open(k, NonceOf(keys.salt, rx), rx, c);
      if text.Some? {
        rx := (rx + 1) % TWO_64;
      }
    }
  }
}
