/** The line grammar of clients and server, and how an incoming text is dispatched. */
module Grammar {
  import opened Wrappers
  import opened ByteStrings
  import opened Protocol
  import Base64
  import Dh
  import E2e

  // ------------------------------------------------------------------ splitting

  /** The first position of a separator. */
  function Find(s: string, sep: char): (r: Option<nat>)
    ensures r.Some? ==> r.value < |s| && s[r.value] == sep && sep !in s[..r.value]
    ensures r.None? ==> sep !in s
  {
    if s == "" then None
    else if s[0] == sep then Some(0)
    else
      match Find(s[1..], sep)
      case None => None
      case Some(i) =>
        assert s[..i + 1] == [s[0]] + s[1..][..i];
        Some(i + 1)
  }

  /** At most `parts` pieces; the last keeps everything that remains. */
  function Split(s: string, sep: char, parts: nat): seq<string> {
    if parts == 0 then []
    else if parts == 1 then [s]
    else
      match Find(s, sep)
      case None => [s]
      case Some(i) => [s[..i]] + Split(s[i + 1..], sep, parts - 1)
  }

  method SplitN(s: string, sep: char, parts: nat) returns (out: seq<string>)
    ensures out == Split(s, sep, parts)
  {
    hide *;
    out := [];
    if parts == 0 {
      SplitFew(s, sep);
      return;
    }
    var pos := 0;
    assert s[0..] == s;
    while |out| + 1 < parts
      invariant 0 <= pos <= |s| && |out| + 1 <= parts
      invariant Split(s, sep, parts) == out + Split(s[pos..], sep, parts - |out|)
    {
      SplitStep(s, sep, pos, parts, out);
      var hit := Find(s[pos..], sep);
      if hit.None? {
        return out + [s[pos..]];
      }
      out := out + [s[pos..pos + hit.value]];
      pos := pos + hit.value + 1;
    }
    SplitFew(s[pos..], sep);
    out := out + [s[pos..]];
  }

  lemma SplitFew(s: string, sep: char)
    ensures Split(s, sep, 0) == [] && Split(s, sep, 1) == [s]
  {
  }

  /** One turn of the loop: the next piece moves out of the rest. */
  lemma SplitStep(s: string, sep: char, pos: nat, parts: nat, out: seq<string>)
    requires pos <= |s| && |out| + 1 < parts
    ensures match Find(s[pos..], sep)
            case None => Split(s[pos..], sep, parts - |out|) == [s[pos..]]
            case Some(i) =>
              && pos + i + 1 <= |s|
              && out + Split(s[pos..], sep, parts - |out|)
              == out + [s[pos..pos + i]] + Split(s[pos + i + 1..], sep, parts - |out| - 1)
  {
    hide *;
    SplitFirst(s[pos..], sep, parts - |out|);
    match Find(s[pos..], sep)
    case None =>
    case Some(i) =>
      assert s[pos..][..i] == s[pos..pos + i];
      assert s[pos..][i + 1..] == s[pos + i + 1..];
      var rest := Split(s[pos + i + 1..], sep, parts - |out| - 1);
      assert out + ([s[pos..pos + i]] + rest) == out + [s[pos..pos + i]] + rest;
  }

  function Join(pieces: seq<string>, sep: char): string {
    if pieces == [] then ""
    else if |pieces| == 1 then pieces[0]
    else pieces[0] + [sep] + Join(pieces[1..], sep)
  }

  lemma JoinMore(head: string, rest: seq<string>, sep: char)
    requires rest != []
    ensures Join([head] + rest, sep) == head + [sep] + Join(rest, sep)
  {
  }

  /** Splitting loses nothing, makes at most the pieces asked for, and only the last may contain the separator. */
  lemma {:induction false} SplitJoins(s: string, sep: char, parts: nat)
    requires parts >= 1
    ensures var out := Split(s, sep, parts);
            && 1 <= |out| <= parts && Join(out, sep) == s
            && (forall i :: 0 <= i < |out| - 1 ==> sep !in out[i])
            && (|out| < parts ==> sep !in out[|out| - 1])
  {
    hide *;
    SplitFirst(s, sep, parts);
    if parts == 1 || Find(s, sep).None? {
      JoinOne(s, sep);
    } else {
      var head, tail := s[..Find(s, sep).value], s[Find(s, sep).value + 1..];
      SplitJoins(tail, sep, parts - 1);
      CutAt(s, Find(s, sep).value);
      OneMorePiece(head, tail, Split(tail, sep, parts - 1), sep, parts);
    }
  }

  lemma CutAt(s: string, i: nat)
    requires i < |s|
    ensures s == s[..i] + [s[i]] + s[i + 1..]
  {
  }

  lemma OneMorePiece(head: string, tail: string, rest: seq<string>, sep: char, parts: nat)
    requires sep !in head && 1 <= |rest| < parts && Join(rest, sep) == tail
    requires forall i :: 0 <= i < |rest| - 1 ==> sep !in rest[i]
    requires |rest| < parts - 1 ==> sep !in rest[|rest| - 1]
    ensures var out := [head] + rest;
            && 2 <= |out| <= parts && Join(out, sep) == head + [sep] + tail
            && (forall i :: 0 <= i < |out| - 1 ==> sep !in out[i])
            && (|out| < parts ==> sep !in out[|out| - 1])
  {
    JoinMore(head, rest, sep);
    hide Join;
  }

  lemma SplitFirst(s: string, sep: char, parts: nat)
    requires parts >= 1
    ensures Split(s, sep, parts) == if parts == 1 || Find(s, sep).None? then [s]
                                    else var i := Find(s, sep).value; [s[..i]] + Split(s[i + 1..], sep, parts - 1)
  {
    hide Find;
  }

  lemma JoinOne(s: string, sep: char)
    ensures Join([s], sep) == s
  {
  }

  /** A first piece without the separator is cut off exactly. */
  lemma SplitAt(head: string, sep: char, tail: string, parts: nat)
    requires sep !in head && parts >= 2
    ensures Split(head + [sep] + tail, sep, parts) == [head] + Split(tail, sep, parts - 1)
  {
    var s := head + [sep] + tail;
    assert s[..|head|] == head && s[|head| + 1..] == tail;
    FindFirst(s, sep, |head|);
  }

  lemma {:induction false} FindFirst(s: string, sep: char, k: nat)
    requires k < |s| && s[k] == sep && sep !in s[..k]
    ensures Find(s, sep) == Some(k)
  {
    if k == 0 {
    } else {
      assert s[0] in s[..k];
      assert s[1..][..k - 1] == s[..k][1..];
      FindFirst(s[1..], sep, k - 1);
    }
  }

  // ------------------------------------------------------------------ usernames

  predicate NameChar(c: char) {
    'a' <= c <= 'z' || 'A' <= c <= 'Z' || '0' <= c <= '9' || c == '_'
  }

  predicate Username(s: string) {
    1 <= |s| <= MAX_USERNAME && forall i :: 0 <= i < |s| ==> NameChar(s[i])
  }

  method ValidUsername(name: string) returns (ok: bool)
    ensures ok == Username(name)
  {
    if name == "" || |name| > MAX_USERNAME {
      return false;
    }
    var i := 0;
    while i < |name|
      invariant 0 <= i <= |name| && forall j :: 0 <= j < i ==> NameChar(name[j])
    {
      if !NameChar(name[i]) {
        return false;
      }
      i := i + 1;
    }
    ok := true;
  }

  /** Letters and digits are the characters of Base64 without '+' and '/'; to them the underscore is added. */
  lemma UsernameExactly(s: string)
    ensures Username(s) <==>
              1 <= |s| <= 32 && forall c :: c in s ==> c == '_' || (c in Base64.ALPHABET && c != '+' && c != '/')
  {
    hide Base64.ALPHABET;
    forall c: char ensures c in Base64.ALPHABET <==> Base64.ValueOf(c) >= 0 {
      Base64.ValueInAlphabet(c);
    }
    assert forall i :: 0 <= i < |s| ==> s[i] in s;
  }

  lemma UsernameHasNoSpace(s: string)
    requires Username(s)
    ensures ' ' !in s
  {
  }

  // ---------------------------------------------------------------- composition

  function MsgLine(to: string, text: string): string {
    "MSG" + " " + (to + " " + text)
  }

  function FromLine(sender: string, text: string): string {
    "FROM" + " " + (sender + " " + text)
  }

  /** What a receiving client does with the text of a FROM line. */
  datatype Dispatch = ToInit(payload: string) | ToAck(payload: string) | ToChat(payload: string) | Plain(text: string)

  function Classify(text: string): Dispatch {
    if E2e.TAG_INIT <= text then ToInit(text[|E2e.TAG_INIT|..])
    else if E2e.TAG_ACK <= text then ToAck(text[|E2e.TAG_ACK|..])
    else if E2e.TAG_MSG <= text then ToChat(text[|E2e.TAG_MSG|..])
    else Plain(text)
  }

  /** Text a user may send: the reserved prefix is refused. */
  predicate Sendable(text: string) {
    !("__E2E" <= text)
  }

  /** The first word of a line, and what follows its first space. */
  function Verb(line: string): string {
    SplitJoins(line, ' ', 2);
    Split(line, ' ', 2)[0]
  }

  function Arguments(line: string): string {
    var parts := Split(line, ' ', 2);
    if |parts| > 1 then parts[1] else ""
  }

  /** The sender and text a client reads out of a FROM line. */
  function Incoming(line: string): Option<(string, string)> {
    if Verb(line) != "FROM" then None else Some((Verb(Arguments(line)), Arguments(Arguments(line))))
  }

  /** The text a line addresses to `to`, if it is a message to `to`. */
  function Addressed(line: string, to: string): seq<string> {
    var parts := Split(Arguments(line), ' ', 2);
    if Verb(line) == "MSG" && |parts| == 2 && parts[0] == to then [parts[1]] else []
  }

  /** Each tag selects its own handler, which gets exactly what follows the tag. */
  lemma TagSelects(payload: string)
    ensures Classify(E2e.TAG_INIT + payload) == ToInit(payload)
    ensures Classify(E2e.TAG_ACK + payload) == ToAck(payload)
    ensures Classify(E2e.TAG_MSG + payload) == ToChat(payload)
  {
    var i, a, m := E2e.TAG_INIT + payload, E2e.TAG_ACK + payload, E2e.TAG_MSG + payload;
    assert i[..12] == E2e.TAG_INIT && i[12..] == payload;
    assert a[..11] == E2e.TAG_ACK && a[11..] == payload;
    assert m[..11] == E2e.TAG_MSG && m[11..] == payload;
    assert a[6] == 'A' && m[6] == 'M' && E2e.TAG_INIT[6] == 'I' && E2e.TAG_ACK[6] == 'A';
  }

  /** What a user is allowed to type is only ever shown as chat. */
  lemma SendableIsPlain(text: string)
    requires Sendable(text)
    ensures Classify(text) == Plain(text)
  {
    PrefixTransitive("__E2E", E2e.TAG_INIT, text);
    PrefixTransitive("__E2E", E2e.TAG_ACK, text);
    PrefixTransitive("__E2E", E2e.TAG_MSG, text);
  }

  lemma PrefixTransitive(a: string, b: string, c: string)
    ensures a <= b && b <= c ==> a <= c
  {
  }

  /** A line built from a name and any text splits back into them, at the server and at the client. */
  lemma LinesSplitBack(name: string, text: string)
    requires ' ' !in name
    ensures Split(MsgLine(name, text), ' ', 2) == ["MSG", name + " " + text]
    ensures Split(name + " " + text, ' ', 2) == [name, text]
    ensures Incoming(FromLine(name, text)) == Some((name, text))
  {
    SplitAt("MSG", ' ', name + " " + text, 2);
    SplitAt("FROM", ' ', name + " " + text, 2);
    SplitAt(name, ' ', text, 2);
  }

  /** What a client composes for a name is addressed to that name only, text unchanged. */
  lemma ComposedIsAddressed(to: string, text: string, name: string)
    requires ' ' !in to
    ensures Addressed(MsgLine(to, text), name) == if to == name then [text] else []
  {
    SplitAt("MSG", ' ', to + " " + text, 2);
    SplitAt(to, ' ', text, 2);
    SplitFew(to + " " + text, ' ');
    SplitFew(text, ' ');
  }

  /** Key-exchange payloads reach their handler and decode to the epoch and value that were sent. */
  lemma KexReachesHandler(epoch: nat, pub: Bytes)
    requires epoch < TWO_32 && |pub| == Dh.MODULUS_BYTES
    ensures var p := E2e.KexText(epoch, pub);
            && Classify(E2e.TAG_INIT + p) == ToInit(p) && Classify(E2e.TAG_ACK + p) == ToAck(p)
            && E2e.KexOf(p) == Some((epoch, pub))
  {
    TagSelects(E2e.KexText(epoch, pub));
    E2e.KexRoundTrip(epoch, pub);
  }
}
