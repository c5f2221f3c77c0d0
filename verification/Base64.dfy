/** Base64 as in section 4 of RFC 4648, carrying binary payloads inside text. */
module Base64 {
  import opened Wrappers
  import opened Arith
  import opened ByteStrings

  type Sextet = n: int | 0 <= n < 64

  function CharOf(n: Sextet): char {
    if n < 26 then 'A' + n as char
    else if n < 52 then 'a' + (n - 26) as char
    else if n < 62 then '0' + (n - 52) as char
    else if n == 62 then '+' else '/'
  }

  /** The value of a Base64 character, or -1. */
  function ValueOf(c: char): int {
    if 'A' <= c <= 'Z' then (c - 'A') as int
    else if 'a' <= c <= 'z' then (c - 'a') as int + 26
    else if '0' <= c <= '9' then (c - '0') as int + 52
    else if c == '+' then 62
    else if c == '/' then 63
    else -1
  }

  lemma CharValue(n: Sextet)
    ensures ValueOf(CharOf(n)) == n
    ensures CharOf(n) != '='
    ensures CharOf(n) != ' '
  {
  }

  // ------------------------------------------------------------ specification

  function Sextet0(x: Byte): Sextet { x / 4 }
  function Sextet1(x: Byte, y: Byte): Sextet { x % 4 * 16 + y / 16 }
  function Sextet2(y: Byte, z: Byte): Sextet { y % 16 * 4 + z / 64 }
  function Sextet3(z: Byte): Sextet { z % 64 }

  function EncodeGroup(b: Bytes): (s: string)
    requires |b| == 3
    ensures |s| == 4
  {
    [CharOf(Sextet0(b[0])), CharOf(Sextet1(b[0], b[1])), CharOf(Sextet2(b[1], b[2])), CharOf(Sextet3(b[2]))]
  }

  /** The last group, of one or two octets, padded with '='. */
  function EncodeTail(b: Bytes): (s: string)
    requires 1 <= |b| <= 2
    ensures |s| == 4
  {
    var y := if |b| == 2 then b[1] else 0;
    [CharOf(Sextet0(b[0])), CharOf(Sextet1(b[0], y)), if |b| == 2 then CharOf(Sextet2(y, 0)) else '=', '=']
  }

  /** The 24-bit word the encoder shifts its sextets out of. */
  function Word(x: int, y: int, z: int): int {
    x * 0x10000 + y * 0x100 + z
  }

  lemma WordSextets(x: Byte, y: Byte, z: Byte)
    ensures var n := Word(x, y, z);
            && n / 0x40000 % 64 == Sextet0(x)
            && n / 0x1000 % 64 == Sextet1(x, y)
            && n / 0x40 % 64 == Sextet2(y, z)
            && n % 64 == Sextet3(z)
  {
    var n := Word(x, y, z);
    ModUnique(n, x / 4, x % 4 * 0x10000 + y * 0x100 + z, 0x40000);
    ModUnique(x / 4, 0, x / 4, 64);
    ModUnique(n, x * 16 + y / 16, y % 16 * 0x100 + z, 0x1000);
    ModUnique(x * 16 + y / 16, x / 4, Sextet1(x, y), 64);
    ModUnique(n, x * 1024 + y * 4 + z / 64, z % 64, 0x40);
    ModUnique(x * 1024 + y * 4 + z / 64, x * 16 + y / 16, Sextet2(y, z), 64);
  }

  function Octet0(a: int, b: int): Byte { (a * 4 + b / 16) % 256 }
  function Octet1(b: int, c: int): Byte { (b * 16 + c / 4) % 256 }
  function Octet2(c: int, d: int): Byte { (c * 64 + d) % 256 }

  /** Regrouping three octets into four sextets and back is the identity. */
  lemma SextetsBack(x: Byte, y: Byte, z: Byte)
    ensures Octet0(Sextet0(x), Sextet1(x, y)) == x
    ensures Octet1(Sextet1(x, y), Sextet2(y, z)) == y
    ensures Octet2(Sextet2(y, z), Sextet3(z)) == z
  {
    ModUnique(Sextet1(x, y), x % 4, y / 16, 16);
    ModUnique(Sextet2(y, z), y % 16, z / 64, 4);
    ModUnique(Sextet1(x, y) * 16 + y % 16, x % 4, y, 256);
    ModUnique(Sextet2(y, z) * 64 + z % 64, y % 16, z, 256);
  }

  function Encoded(b: Bytes): string {
    if b == [] then ""
    else if |b| < 3 then EncodeTail(b)
    else EncodeGroup(b[..3]) + Encoded(b[3..])
  }

  /** What one group of four characters stands for; None when it is rejected. */
  function DecodeQuad(q: string): Option<Bytes>
    requires |q| == 4
  {
    var a, b, c, d := ValueOf(q[0]), ValueOf(q[1]), ValueOf(q[2]), ValueOf(q[3]);
    if a < 0 || b < 0 then None
    else if q[2] == '=' then (if q[3] == '=' then Some([Octet0(a, b)]) else None)
    else if c < 0 then None
    else if q[3] == '=' then Some([Octet0(a, b), Octet1(b, c)])
    else if d < 0 then None
    else Some([Octet0(a, b), Octet1(b, c), Octet2(c, d)])
  }

  function Joined(x: Option<Bytes>, y: Option<Bytes>): Option<Bytes> {
    if x.Some? && y.Some? then Some(x.value + y.value) else None
  }

  function Decoded(s: string): Option<Bytes> {
    if |s| % 4 != 0 then None
    else if s == "" then Some([])
    else Joined(DecodeQuad(s[..4]), Decoded(s[4..]))
  }

  // ---------------------------------------------------------------- algorithms

  method Encode(input: Bytes) returns (out: string)
    ensures out == Encoded(input)
  {
    hide CharOf, Word, Sextet0, Sextet1, Sextet2, Sextet3;
    out := "";
    var i := 0;
    assert input[0..] == input;
    while i + 3 <= |input|
      invariant 0 <= i <= |input|
      invariant out + Encoded(input[i..]) == Encoded(input)
    {
      var x, y, z := input[i], input[i + 1], input[i + 2];
      var n := Word(x, y, z);
      WordSextets(x, y, z);
      assert input[i..][..3] == [x, y, z] && input[i..][3..] == input[i + 3..];
      assert Encoded(input[i..]) == EncodeGroup([x, y, z]) + Encoded(input[i + 3..]);
      out := out + [CharOf(n / 0x40000 % 64), CharOf(n / 0x1000 % 64), CharOf(n / 0x40 % 64), CharOf(n % 64)];
      i := i + 3;
    }
    var rem := |input| - i;
    if rem != 0 {
      var y := if rem == 2 then input[i + 1] else 0;
      var n := Word(input[i], y, 0);
      WordSextets(input[i], y, 0);
      out := out + [CharOf(n / 0x40000 % 64), CharOf(n / 0x1000 % 64),
                    if rem == 2 then CharOf(n / 0x40 % 64) else '=', '='];
    }
  }

  method Decode(input: string) returns (result: Option<Bytes>)
    ensures result == Decoded(input)
  {
    if |input| % 4 != 0 {
      return None;
    }
    hide ValueOf, Octet0, Octet1, Octet2, Decoded, Joined, DecodeQuad;
    var out: Bytes := [];
    var i := 0;
    JoinEmpty(Decoded(input));
    assert input[0..] == input;
    while i < |input|
      invariant 0 <= i <= |input| && i % 4 == 0
      invariant Decoded(input) == Joined(Some(out), Decoded(input[i..]))
    {
      QuadStep(input, i, out);
      QuadCases(input[i..i + 4]);
      var a, b := ValueOf(input[i]), ValueOf(input[i + 1]);
      if a < 0 || b < 0 {
        return None;
      }
      var c3, c4 := input[i + 2], input[i + 3];
      ghost var before := out;
      out := out + [Octet0(a, b)];
      if c3 != '=' {
        var c := ValueOf(c3);
        if c < 0 {
          return None;
        }
        out := out + [Octet1(b, c)];
        if c4 != '=' {
          var d := ValueOf(c4);
          if d < 0 {
            return None;
          }
          out := out + [Octet2(c, d)];
        }
      } else if c4 != '=' {
        return None;
      }
      assert out == before + DecodeQuad(input[i..i + 4]).value;
      i := i + 4;
    }
    AllDecoded(out, input[i..]);
    result := Some(out);
  }

  /** DecodeQuad, outcome by outcome. */
  lemma QuadCases(q: string)
    requires |q| == 4
    ensures var a, b, c, d := ValueOf(q[0]), ValueOf(q[1]), ValueOf(q[2]), ValueOf(q[3]);
            && (a < 0 || b < 0 ==> DecodeQuad(q) == None)
            && (a >= 0 && b >= 0 && q[2] == '=' ==>
                  DecodeQuad(q) == if q[3] == '=' then Some([Octet0(a, b)]) else None)
            && (a >= 0 && b >= 0 && q[2] != '=' && c < 0 ==> DecodeQuad(q) == None)
            && (a >= 0 && b >= 0 && q[2] != '=' && c >= 0 && q[3] == '=' ==>
                  DecodeQuad(q) == Some([Octet0(a, b), Octet1(b, c)]))
            && (a >= 0 && b >= 0 && q[2] != '=' && c >= 0 && q[3] != '=' ==>
                  DecodeQuad(q) == if d < 0 then None else Some([Octet0(a, b), Octet1(b, c), Octet2(c, d)]))
  {
    hide ValueOf, Octet0, Octet1, Octet2;
  }

  /** What the next group of four does to the part decoded so far. */
  lemma QuadStep(input: string, i: nat, out: Bytes)
    requires |input| % 4 == 0 && i % 4 == 0 && i < |input|
    ensures i + 4 <= |input|
    ensures match DecodeQuad(input[i..i + 4])
            case None => Joined(Some(out), Decoded(input[i..])) == None
            case Some(x) =>
              Joined(Some(out), Decoded(input[i..])) == Joined(Some(out + x), Decoded(input[i + 4..]))
  {
    hide DecodeQuad;
    var rest := input[i..];
    assert rest[..4] == input[i..i + 4] && rest[4..] == input[i + 4..];
    JoinAssociative(Some(out), DecodeQuad(rest[..4]), Decoded(rest[4..]));
  }

  lemma AllDecoded(out: Bytes, rest: string)
    requires rest == ""
    ensures Joined(Some(out), Decoded(rest)) == Some(out)
  {
    assert out + [] == out;
  }

  lemma JoinEmpty(x: Option<Bytes>)
    ensures Joined(Some([]), x) == x
  {
    if x.Some? {
      assert [] + x.value == x.value;
    }
  }

  lemma JoinAssociative(x: Option<Bytes>, y: Option<Bytes>, z: Option<Bytes>)
    ensures Joined(x, Joined(y, z)) == Joined(Joined(x, y), z)
  {
    if x.Some? && y.Some? && z.Some? {
      assert x.value + (y.value + z.value) == x.value + y.value + z.value;
    }
  }

  // ---------------------------------------------------------------- properties

  /** A group of characters with known values decodes to the octets of those values. */
  lemma QuadOfValues(q: string, a: Sextet, b: Sextet, c: Sextet, d: Sextet)
    requires |q| == 4 && q[0] == CharOf(a) && q[1] == CharOf(b)
    ensures q[2] == q[3] == '=' ==> DecodeQuad(q) == Some([Octet0(a, b)])
    ensures q[2] == CharOf(c) && q[3] == '=' ==> DecodeQuad(q) == Some([Octet0(a, b), Octet1(b, c)])
    ensures q[2] == CharOf(c) && q[3] == CharOf(d) ==>
              DecodeQuad(q) == Some([Octet0(a, b), Octet1(b, c), Octet2(c, d)])
  {
    hide CharOf, ValueOf, Octet0, Octet1, Octet2;
    CharValue(a);
    CharValue(b);
    CharValue(c);
    CharValue(d);
  }

  lemma GroupRoundTrip(b: Bytes)
    requires |b| == 3
    ensures DecodeQuad(EncodeGroup(b)) == Some(b)
  {
    hide CharOf, ValueOf, Octet0, Octet1, Octet2, DecodeQuad;
    SextetsBack(b[0], b[1], b[2]);
    QuadOfValues(EncodeGroup(b), Sextet0(b[0]), Sextet1(b[0], b[1]), Sextet2(b[1], b[2]), Sextet3(b[2]));
    assert b == [b[0], b[1], b[2]];
  }

  lemma TailRoundTrip(b: Bytes)
    requires 1 <= |b| <= 2
    ensures DecodeQuad(EncodeTail(b)) == Some(b)
  {
    hide CharOf, ValueOf, Octet0, Octet1, Octet2, DecodeQuad;
    var y := if |b| == 2 then b[1] else 0;
    SextetsBack(b[0], y, 0);
    QuadOfValues(EncodeTail(b), Sextet0(b[0]), Sextet1(b[0], y), Sextet2(y, 0), 0);
    assert b == if |b| == 2 then [b[0], b[1]] else [b[0]];
  }

  // ---------------------------------------------- exactly the code of RFC 4648

  const ALPHABET: string := UPPER + LOWER + DIGITS + "+/"
  const UPPER: string := "ABCDEFGHIJKLMNOPQRSTUVWXYZ"
  const LOWER: string := "abcdefghijklmnopqrstuvwxyz"
  const DIGITS: string := "0123456789"

  lemma Uppers(n: nat)
    requires n < 26
    ensures UPPER[n] == 'A' + n as char && LOWER[n] == 'a' + n as char
  {
  }

  lemma DigitsOf(n: nat)
    requires n < 10
    ensures DIGITS[n] == '0' + n as char
  {
  }

  /** The characters are those of the standard alphabet, each at its place. */
  lemma InAlphabet(n: Sextet)
    ensures |ALPHABET| == 64 && CharOf(n) == ALPHABET[n]
  {
    assert |UPPER| == |LOWER| == 26 && |DIGITS| == 10;
    AtPlace(UPPER, LOWER, DIGITS, "+/", n);
    if n < 26 {
      Uppers(n);
    } else if n < 52 {
      Uppers(n - 26);
    } else if n < 62 {
      DigitsOf(n - 52);
    }
    hide UPPER, LOWER, DIGITS;
  }

  lemma AtPlace(a: string, b: string, c: string, d: string, n: Sextet)
    requires |a| == |b| == 26 && |c| == 10 && |d| == 2
    ensures (a + b + c + d)[n] == if n < 26 then a[n] else if n < 52 then b[n - 26]
                                  else if n < 62 then c[n - 52] else d[n - 62]
  {
  }

  /** A character has a value if and only if it is in the alphabet, and then that is its place. */
  lemma ValueInAlphabet(c: char)
    ensures |ALPHABET| == 64
    ensures ValueOf(c) >= 0 <==> c in ALPHABET
    ensures -1 <= ValueOf(c) < 64 && (ValueOf(c) >= 0 ==> ALPHABET[ValueOf(c)] == c)
  {
    if ValueOf(c) >= 0 {
      InAlphabet(ValueOf(c));
    }
    if n :| 0 <= n < |ALPHABET| && ALPHABET[n] == c {
      InAlphabet(n);
      CharValue(n);
    }
  }

  /** Two characters, then two more, one and a padding, or two paddings. */
  predicate QuadAccepted(q: string)
    requires |q| == 4
  {
    && q[0] in ALPHABET && q[1] in ALPHABET
    && if q[2] == '=' then q[3] == '=' else q[2] in ALPHABET && (q[3] == '=' || q[3] in ALPHABET)
  }

  lemma QuadExact(q: string)
    requires |q| == 4
    ensures DecodeQuad(q).Some? <==> QuadAccepted(q)
  {
    hide ValueOf, Octet0, Octet1, Octet2, ALPHABET;
    ValueInAlphabet(q[0]);
    ValueInAlphabet(q[1]);
    ValueInAlphabet(q[2]);
    ValueInAlphabet(q[3]);
  }

  /** The i-th group of four characters. */
  function QuadAt(s: string, i: nat): (q: string)
    requires i < |s| / 4
    ensures |q| == 4
  {
    s[4 * i..4 * i + 4]
  }

  predicate Quads(s: string) {
    |s| % 4 == 0 && forall i :: 0 <= i < |s| / 4 ==> QuadAccepted(QuadAt(s, i))
  }

  lemma QuadsCons(s: string)
    requires |s| % 4 == 0 && s != ""
    ensures Quads(s) <==> QuadAccepted(s[..4]) && Quads(s[4..])
  {
    hide QuadAccepted;
    var rest := s[4..];
    assert QuadAt(s, 0) == s[..4] && |rest| / 4 == |s| / 4 - 1;
    forall i | 0 <= i < |rest| / 4 ensures QuadAt(rest, i) == QuadAt(s, i + 1) {
    }
    hide QuadAt;
    if QuadAccepted(s[..4]) && Quads(rest) {
      forall i | 0 <= i < |s| / 4 ensures QuadAccepted(QuadAt(s, i)) {
        assert i > 0 ==> QuadAt(rest, i - 1) == QuadAt(s, i);
      }
    }
  }

  /** A text decodes if and only if it consists of such groups of four. */
  lemma {:induction false} DecodesExactly(s: string)
    ensures Decoded(s).Some? <==> Quads(s)
    decreases |s|
  {
    hide QuadAccepted, DecodeQuad;
    if |s| % 4 != 0 {
    } else if s == "" {
      assert Quads(s);
    } else {
      hide Quads;
      DecodesExactly(s[4..]);
      QuadExact(s[..4]);
      QuadsCons(s);
      assert Decoded(s) == Joined(DecodeQuad(s[..4]), Decoded(s[4..]));
    }
  }

  /** The test vectors of section 10 of RFC 4648. */
  lemma Vectors()
    ensures Encoded([]) == "" && Encoded([102]) == "Zg==" && Encoded([102, 111]) == "Zm8="
    ensures Encoded([102, 111, 111]) == "Zm9v" && Encoded([102, 111, 111, 98, 97, 114]) == "Zm9vYmFy"
  {
    Tails();
    Groups();
    EncodedGroup([102, 111, 111], []);
    EncodedGroup([98, 97, 114], []);
    EncodedGroup([102, 111, 111], [98, 97, 114]);
    hide EncodeGroup, Encoded;
    assert [102, 111, 111] + [] == [102, 111, 111] && [98, 97, 114] + [] == [98, 97, 114];
    assert [102, 111, 111] + [98, 97, 114] == [102, 111, 111, 98, 97, 114];
  }

  lemma Tails()
    ensures Encoded([]) == "" && Encoded([102]) == "Zg==" && Encoded([102, 111]) == "Zm8="
  {
  }

  lemma Groups()
    ensures EncodeGroup([102, 111, 111]) == "Zm9v" && EncodeGroup([98, 97, 114]) == "YmFy"
  {
  }

  lemma EncodedGroup(b: Bytes, rest: Bytes)
    requires |b| == 3
    ensures Encoded(b + rest) == EncodeGroup(b) + Encoded(rest)
  {
    assert (b + rest)[..3] == b && (b + rest)[3..] == rest;
  }

  /** Four characters for every started group of three octets. */
  lemma {:induction false} EncodedLength(b: Bytes)
    ensures |Encoded(b)| == (|b| + 2) / 3 * 4
  {
    hide CharOf, EncodeGroup;
    if |b| < 3 {
    } else {
      EncodedLength(b[3..]);
      assert (|b| + 2) / 3 == (|b[3..]| + 2) / 3 + 1;
    }
  }

  /** Every octet string survives encoding and decoding. */
  lemma {:induction false} RoundTrip(b: Bytes)
    ensures Decoded(Encoded(b)) == Some(b)
  {
    hide EncodeGroup, EncodeTail, DecodeQuad;
    var s := Encoded(b);
    if b == [] {
    } else if |b| < 3 {
      TailRoundTrip(b);
      assert s[..4] == EncodeTail(b) && s[4..] == "";
      assert b + [] == b;
    } else {
      GroupRoundTrip(b[..3]);
      RoundTrip(b[3..]);
      assert s[..4] == EncodeGroup(b[..3]) && s[4..] == Encoded(b[3..]);
      assert b[..3] + b[3..] == b;
    }
  }

  lemma DecodedFirst(s: string)
    ensures |s| % 4 != 0 ==> Decoded(s) == None
    ensures |s| % 4 == 0 && s != "" ==> Decoded(s) == Joined(DecodeQuad(s[..4]), Decoded(s[4..]))
  {
    hide DecodeQuad, Joined;
  }

  lemma ConcatTail(s: string, t: string)
    requires |s| % 4 == 0 && s != ""
    ensures (s + t)[..4] == s[..4] && (s + t)[4..] == s[4..] + t
    ensures |s[4..]| % 4 == 0 && |s + t| % 4 == |t| % 4
  {
  }

  /** Decoding distributes over concatenation at a group boundary. */
  lemma {:induction false} DecodeConcat(s: string, t: string)
    requires |s| % 4 == 0
    ensures Decoded(s + t) == Joined(Decoded(s), Decoded(t))
  {
    if s == "" {
      assert s + t == t;
      JoinEmpty(Decoded(t));
    } else {
      hide *;
      ConcatTail(s, t);
      DecodeConcat(s[4..], t);
      JoinAssociative(DecodeQuad(s[..4]), Decoded(s[4..]), Decoded(t));
      DecodedFirst(s);
      DecodedFirst(s + t);
      DecodedFirst(t);
      JoinNone(Decoded(s));
    }
  }

  lemma JoinNone(x: Option<Bytes>)
    ensures Joined(x, None) == None
  {
  }
}
