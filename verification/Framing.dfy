/**
 * Record framing: [length:4][type:1][body], and the incremental parser of the
 * server, which reclaims its consumed prefix lazily.
 */
module Framing {
  import opened Wrappers
  import opened ByteStrings
  import opened Protocol

  const READ_CHUNK: nat := 4096

  datatype Record = Record(kind: Byte, body: Bytes)

  /** Records the writers accept. */
  predicate Fits(r: Record) {
    |r.body| + 1 <= MAX_RECORD
  }

  /** The octets of one record on the wire. */
  function Encoded(r: Record): Bytes {
    BigEndian(|r.body| + 1, HDR_LEN) + [r.kind] + r.body
  }

  function EncodedAll(rs: seq<Record>): Bytes {
    if rs == [] then [] else Encoded(rs[0]) + EncodedAll(rs[1..])
  }

  lemma {:induction false} EncodedAllAppend(rs: seq<Record>, r: Record)
    ensures EncodedAll(rs + [r]) == EncodedAll(rs) + Encoded(r)
  {
    if rs == [] {
      assert rs + [r] == [r] && [r][1..] == [];
    } else {
      assert (rs + [r])[1..] == rs[1..] + [r];
      EncodedAllAppend(rs[1..], r);
    }
  }

  // ------------------------------------------------------------ one-shot parser

  datatype Head = Need | Bad | Got(record: Record, size: nat)

  /** The first record of a stream: complete, still incomplete, or impossible. */
  function Peek(s: Bytes): (h: Head)
    ensures h.Got? ==> HDR_LEN < h.size <= |s|
  {
    if |s| < HDR_LEN then Need
    else
      var len := FromBigEndian(s[..HDR_LEN]);
      if len < 1 || len > MAX_RECORD then Bad
      else if |s| < HDR_LEN + len then Need
      else Got(Record(s[HDR_LEN], s[HDR_LEN + 1..HDR_LEN + len]), HDR_LEN + len)
  }

  /** What a reader holding `unread` hands out next, and what it holds then. */
  function Taken(unread: Bytes): (Head, Bytes) {
    match Peek(unread)
    case Got(r, n) => (Got(r, n), unread[n..])
    case other => (other, unread)
  }

  /** A whole stream at once: its records, the unparsed rest, and whether the rest is malformed. */
  datatype Parsed = Parsed(records: seq<Record>, rest: Bytes, malformed: bool)

  function Parse(s: Bytes): Parsed
    decreases |s|
  {
    match Peek(s)
    case Need => Parsed([], s, false)
    case Bad => Parsed([], s, true)
    case Got(r, n) =>
      var p := Parse(s[n..]);
      p.(records := [r] + p.records)
  }

  /** More octets behind a stream change neither a complete first record nor a malformed length. */
  lemma PeekExtends(s: Bytes, t: Bytes)
    ensures Peek(s) != Need ==> Peek(s + t) == Peek(s)
  {
    if |s| >= HDR_LEN {
      assert (s + t)[..HDR_LEN] == s[..HDR_LEN];
      var len := FromBigEndian(s[..HDR_LEN]);
      if 1 <= len <= MAX_RECORD && HDR_LEN + len <= |s| {
        assert (s + t)[HDR_LEN + 1..HDR_LEN + len] == s[HDR_LEN + 1..HDR_LEN + len];
      }
    }
  }

  /** Parsing can be resumed from the unparsed rest; a malformed length stays where it is. */
  lemma {:induction false} ParseExtends(s: Bytes, t: Bytes)
    ensures var p := Parse(s);
            && (!p.malformed ==> Parse(s + t) == Parse(p.rest + t).(records := p.records + Parse(p.rest + t).records))
            && (p.malformed ==> Parse(s + t) == p.(rest := p.rest + t))
    decreases |s|
  {
    hide Peek;
    PeekExtends(s, t);
    match Peek(s)
    case Need =>
      assert [] + Parse(s + t).records == Parse(s + t).records;
    case Bad =>
    case Got(r, n) =>
      assert n <= |s| by { PeekSize(s); }
      assert n > 0 by { PeekSize(s); }
      assert (s + t)[n..] == s[n..] + t;
      ParseExtends(s[n..], t);
      var p := Parse(s[n..]);
      if !p.malformed {
        var q := Parse(p.rest + t);
        assert [r] + (p.records + q.records) == [r] + p.records + q.records;
      }
  }

  lemma PeekSize(s: Bytes)
    ensures Peek(s).Got? ==> HDR_LEN < Peek(s).size <= |s|
  {
  }

  lemma PeekEncoded(r: Record, t: Bytes)
    requires Fits(r)
    ensures Peek(Encoded(r) + t) == Got(r, HDR_LEN + 1 + |r.body|)
  {
    var s := Encoded(r) + t;
    Widths();
    BigEndianRoundTrip(|r.body| + 1, HDR_LEN);
    assert s[..HDR_LEN] == BigEndian(|r.body| + 1, HDR_LEN);
    assert s[HDR_LEN + 1..HDR_LEN + 1 + |r.body|] == r.body;
  }

  /** What the writers emit parses back to exactly the records written. */
  lemma {:induction false} ParseEncoded(rs: seq<Record>)
    requires forall r :: r in rs ==> Fits(r)
    ensures Parse(EncodedAll(rs)) == Parsed(rs, [], false)
  {
    if rs == [] {
    } else {
      ParseEncoded(rs[1..]);
      ParseFirst(rs[0], EncodedAll(rs[1..]));
      assert rs == [rs[0]] + rs[1..];
    }
  }

  lemma ParseFirst(r: Record, t: Bytes)
    requires Fits(r)
    ensures Parse(Encoded(r) + t) == Parse(t).(records := [r] + Parse(t).records)
  {
    PeekEncoded(r, t);
    EncodedLength(r);
    hide Peek, Encoded;
    assert (Encoded(r) + t)[HDR_LEN + 1 + |r.body|..] == t;
  }

  lemma EncodedLength(r: Record)
    ensures |Encoded(r)| == HDR_LEN + 1 + |r.body|
  {
  }

  /** Too little for a record: an unparsed rest that is not malformed is shorter than the largest record. */
  lemma NeedIsShort(s: Bytes)
    requires Peek(s) == Need
    ensures |s| <= HDR_LEN + MAX_RECORD - 1
  {
  }

  // --------------------------------------------------- exactly what is a record

  /** Some record begins with s and goes on. */
  ghost predicate Unfinished(s: Bytes) {
    exists r :: Fits(r) && s <= Encoded(r) && s != Encoded(r)
  }

  /** s and the octets of some record agree as far as both go. */
  ghost predicate Viable(s: Bytes) {
    exists r :: Fits(r) && (Encoded(r) <= s || s <= Encoded(r))
  }

  /** Four octets of length, which counts the type, then the type, then the body. */
  lemma HeaderBack(r: Record)
    requires Fits(r)
    ensures |Encoded(r)| == HDR_LEN + 1 + |r.body|
    ensures FromBigEndian(Encoded(r)[..4]) == |r.body| + 1 && Encoded(r)[4] == r.kind && Encoded(r)[5..] == r.body
  {
    Widths();
    BigEndianRoundTrip(|r.body| + 1, HDR_LEN);
    assert Encoded(r)[..HDR_LEN] == BigEndian(|r.body| + 1, HDR_LEN);
  }

  lemma GotIsEncoded(s: Bytes)
    requires Peek(s).Got?
    ensures var r := Peek(s).record; Fits(r) && Encoded(r) == s[..Peek(s).size]
  {
    var n := Peek(s).size;
    FromBigEndianRoundTrip(s[..HDR_LEN]);
    assert s[..n] == s[..HDR_LEN] + [s[HDR_LEN]] + s[HDR_LEN + 1..n];
  }

  /** With a length in range there is a record that goes on from s. */
  lemma Completion(s: Bytes) returns (r: Record)
    requires |s| >= HDR_LEN && Peek(s) == Need
    ensures Fits(r) && s <= Encoded(r) && s != Encoded(r)
  {
    var len := FromBigEndian(s[..HDR_LEN]);
    FromBigEndianRoundTrip(s[..HDR_LEN]);
    var zeros: Bytes := seq(HDR_LEN + len - |s|, i => 0);
    var all := s + zeros;
    r := Record(all[HDR_LEN], all[HDR_LEN + 1..]);
    assert all[..HDR_LEN] == s[..HDR_LEN];
    assert all == all[..HDR_LEN] + [all[HDR_LEN]] + all[HDR_LEN + 1..];
    assert Encoded(r) == all;
  }

  /**
   * A record is found if and only if the stream begins with its octets. Otherwise
   * more is awaited as long as less than a header is there or some record goes on
   * from here; the length is malformed if and only if a header is there and no
   * record at all agrees with it.
   */
  lemma PeekExact(s: Bytes)
    ensures forall r, n :: Peek(s) == Got(r, n) <==> Fits(r) && Encoded(r) <= s && n == |Encoded(r)|
    ensures Peek(s) == Need <==> |s| < HDR_LEN || Unfinished(s)
    ensures Peek(s) == Bad <==> |s| >= HDR_LEN && !Viable(s)
  {
    forall r, n ensures Peek(s) == Got(r, n) <==> Fits(r) && Encoded(r) <= s && n == |Encoded(r)| {
      FoundExact(s, r, n);
    }
    forall r | Fits(r) && |s| >= HDR_LEN && s <= Encoded(r) ensures Peek(s) == Need || s == Encoded(r) {
      GoesOn(s, r);
    }
    if |s| >= HDR_LEN && Peek(s) == Need {
      var r := Completion(s);
    }
    assert |s| < HDR_LEN ==> Peek(s) == Need;
    forall r | Fits(r) && Encoded(r) <= s ensures Peek(s).Got? {
      FoundExact(s, r, |Encoded(r)|);
    }
    if Peek(s).Got? {
      GotIsEncoded(s);
      assert Encoded(Peek(s).record) <= s;
    }
    hide Peek, Encoded;
  }

  lemma FoundExact(s: Bytes, r: Record, n: nat)
    ensures Peek(s) == Got(r, n) <==> Fits(r) && Encoded(r) <= s && n == |Encoded(r)|
  {
    if Peek(s) == Got(r, n) {
      GotIsEncoded(s);
    }
    if Fits(r) && Encoded(r) <= s && n == |Encoded(r)| {
      PeekEncoded(r, s[n..]);
      HeaderBack(r);
      assert s == Encoded(r) + s[n..];
    }
  }

  lemma GoesOn(s: Bytes, r: Record)
    requires Fits(r) && |s| >= HDR_LEN && s <= Encoded(r)
    ensures Peek(s) == Need || s == Encoded(r)
  {
    HeaderBack(r);
    assert s[..HDR_LEN] == Encoded(r)[..HDR_LEN];
  }

  /** Taking out a record removes exactly its octets; without one nothing is removed. */
  lemma TakenExact(unread: Bytes)
    ensures var (head, rest) := Taken(unread);
            if head.Got? then Fits(head.record) && unread == Encoded(head.record) + rest else rest == unread
  {
    if Peek(unread).Got? {
      GotIsEncoded(unread);
      assert unread == unread[..Peek(unread).size] + unread[Peek(unread).size..];
    }
  }

  // --------------------------------------------------------- incremental parser

  /** `moved` and `consumed` count octets shifted by compaction and octets handed out in records. */
  class RecordReader {
    var buf: Bytes
    var off: nat
    ghost var moved: nat
    ghost var consumed: nat

    ghost predicate Valid()
      reads this
    {
      off <= |buf|
    }

    /** The octets fed and not yet consumed: all a caller can observe. */
    ghost function Unread(): Bytes
      reads this
      requires Valid()
    {
      buf[off..]
    }

    /** Every complete record has been taken out and no malformed length is in front. */
    ghost predicate Drained()
      reads this
      requires Valid()
    {
      Peek(Unread()) == Need
    }

    /** Octets moved so far, against octets consumed before the present prefix. */
    ghost predicate Thrifty()
      reads this
    {
      off <= consumed && moved * 16384 <= (consumed - off) * 16387
    }

    constructor ()
      ensures Valid() && Unread() == [] && Drained() && buf == [] && Thrifty() && moved == consumed == 0
    {
      buf, off := [], 0;
      moved, consumed := 0, 0;
    }

    /**
     * Appends to the unread octets, whatever compaction does. Fed in chunks to a
     * drained reader, the buffer stays bounded and compaction stays thrifty.
     */
    method Feed(data: Bytes)
      requires Valid()
      modifies this
      ensures Valid() && Unread() == old(Unread()) + data && consumed == old(consumed)
      ensures old(Drained()) && |data| <= READ_CHUNK ==> |buf| <= 2 * MAX_RECORD + HDR_LEN - 2 + READ_CHUNK
      ensures old(Drained() && Thrifty()) ==> Thrifty()
    {
      if Drained() {
        NeedIsShort(Unread());
      }
      if off > 0 {
        if off == |buf| {
          buf := [];
          off := 0;
        } else if off >= MAX_RECORD {
          moved := moved + (|buf| - off);
          buf := buf[off..];
          off := 0;
        }
      }
      buf := buf + data;
    }

    method Next() returns (head: Head)
      requires Valid()
      modifies this
      ensures Valid() && (head, Unread()) == Taken(old(Unread()))
      ensures consumed == old(consumed) + (if head.Got? then head.size else 0) && moved == old(moved)
      ensures |buf| <= old(|buf|) && (old(Thrifty()) ==> Thrifty())
    {
      var avail := |buf| - off;
      if avail < HDR_LEN {
        return Need;
      }
      assert buf[off..][..HDR_LEN] == buf[off..off + HDR_LEN];
      var len := FromBigEndian(buf[off..off + HDR_LEN]);
      if len < 1 || len > MAX_RECORD {
        return Bad;
      }
      if avail < HDR_LEN + len {
        return Need;
      }
      var start := off + HDR_LEN;
      assert buf[off..][HDR_LEN + 1..HDR_LEN + len] == buf[start + 1..start + len];
      head := Got(Record(buf[start], buf[start + 1..start + len]), HDR_LEN + len);
      assert buf[off..][HDR_LEN + len..] == buf[off + HDR_LEN + len..];
      off := off + HDR_LEN + len;
      consumed := consumed + HDR_LEN + len;
      if off == |buf| {
        buf := [];
        off := 0;
      }
    }

    /** Takes out every complete record. */
    method Drain() returns (records: seq<Record>, malformed: bool)
      requires Valid()
      modifies this
      ensures Valid() && Parsed(records, Unread(), malformed) == Parse(old(Unread()))
      ensures !malformed ==> Drained()
      ensures consumed == old(consumed) + |old(Unread())| - |Unread()|
      ensures |buf| <= old(|buf|) && (old(Thrifty()) ==> Thrifty())
    {
      hide Peek;
      records := [];
      ghost var start := Unread();
      while true
        invariant Valid()
        invariant Parse(start) == Parse(Unread()).(records := records + Parse(Unread()).records)
        invariant consumed == old(consumed) + |start| - |Unread()|
        invariant |buf| <= old(|buf|) && (old(Thrifty()) ==> Thrifty())
        decreases |Unread()|
      {
        ghost var before := Unread();
        PeekSize(before);
        var head := Next();
        match head
        case Need =>
          assert records + [] == records;
          return records, false;
        case Bad =>
          assert records + [] == records;
          return records, true;
        case Got(r, n) =>
          assert records + [r] + Parse(Unread()).records == records + ([r] + Parse(Unread()).records);
          records := records + [r];
      }
    }
  }

  /** One turn of the receive loop: a chunk arrives and everything complete is taken out. */
  method FeedAndDrain(reader: RecordReader, chunk: Bytes, records: seq<Record>, ghost stream: Bytes)
    returns (all: seq<Record>, malformed: bool, ghost peak: nat)
    requires reader.Valid() && reader.Thrifty() && reader.Drained() && |chunk| <= READ_CHUNK
    requires Parse(stream) == Parsed(records, reader.Unread(), false)
    modifies reader
    ensures reader.Valid() && reader.Thrifty() && (!malformed ==> reader.Drained())
    ensures Parse(stream + chunk) == Parsed(all, reader.Unread(), malformed)
    ensures reader.consumed == old(reader.consumed) + |old(reader.Unread())| + |chunk| - |reader.Unread()|
    ensures |reader.buf| <= peak <= 36866
  {
    hide Peek, Parse;
    ParseExtends(stream, chunk);
    reader.Feed(chunk);
    peak := |reader.buf|;
    var more: seq<Record>;
    more, malformed := reader.Drain();
    all := records + more;
  }

  function Concat(chunks: seq<Bytes>): Bytes {
    if chunks == [] then [] else Concat(chunks[..|chunks| - 1]) + chunks[|chunks| - 1]
  }

  /**
   * The receive loop: whatever the chunking, the records are those of the whole
   * stream, the buffer never exceeds `peak` octets, and compaction moves at most
   * 16387 octets for every 16384 consumed.
   */
  method ReadStream(chunks: seq<Bytes>) returns (records: seq<Record>, malformed: bool, ghost peak: nat, ghost moved: nat)
    requires forall c :: c in chunks ==> |c| <= READ_CHUNK
    ensures malformed == Parse(Concat(chunks)).malformed
    ensures records == Parse(Concat(chunks)).records
    ensures peak <= 36866
    ensures moved * 16384 <= (|Concat(chunks)| - |Parse(Concat(chunks)).rest|) * 16387
  {
    hide *;
    var reader := new RecordReader();
    records, malformed, peak := [], false, 0;
    ParseNothing();
    ConcatNothing();
    assert chunks[..0] == [];
    var i := 0;
    while i < |chunks| && !malformed
      invariant 0 <= i <= |chunks| && fresh(reader) && reader.Valid() && reader.Thrifty()
      invariant Parse(Concat(chunks[..i])) == Parsed(records, reader.Unread(), malformed)
      invariant !malformed ==> reader.Drained()
      invariant reader.consumed == |Concat(chunks[..i])| - |reader.Unread()|
      invariant peak <= 36866
    {
      ConcatNext(chunks, i);
      ghost var high;
      records, malformed, high := FeedAndDrain(reader, chunks[i], records, Concat(chunks[..i]));
      peak := if high > peak then high else peak;
      i := i + 1;
    }
    moved := reader.moved;
    ConcatSplit(chunks, i);
    assert i == |chunks| ==> chunks[i..] == [];
    StopHere(Concat(chunks[..i]), Concat(chunks[i..]), reader);
  }

  /** A reader that stopped on a malformed length has seen all the records there will ever be. */
  lemma StopHere(seen: Bytes, later: Bytes, reader: RecordReader)
    requires reader.Valid() && reader.Thrifty()
    requires Parse(seen).rest == reader.Unread() && reader.consumed == |seen| - |reader.Unread()|
    requires Parse(seen).malformed || later == []
    ensures Parse(seen + later).records == Parse(seen).records
    ensures Parse(seen + later).malformed == Parse(seen).malformed
    ensures reader.moved * 16384 <= (|seen + later| - |Parse(seen + later).rest|) * 16387
  {
    hide Parse, Peek;
    if later == [] {
      assert seen + later == seen;
    } else {
      ParseExtends(seen, later);
    }
  }

  lemma ConcatNothing()
    ensures Concat([]) == []
  {
  }

  lemma ConcatNext(chunks: seq<Bytes>, i: nat)
    requires i < |chunks|
    ensures Concat(chunks[..i + 1]) == Concat(chunks[..i]) + chunks[i]
  {
    assert chunks[..i + 1][..i] == chunks[..i];
  }

  lemma ParseNothing()
    ensures Parse([]) == Parsed([], [], false)
  {
  }

  lemma {:induction false} ConcatSplit(chunks: seq<Bytes>, i: nat)
    requires i <= |chunks|
    ensures Concat(chunks) == Concat(chunks[..i]) + Concat(chunks[i..])
    decreases |chunks| - i
  {
    if i == |chunks| {
      assert chunks[..i] == chunks;
    } else {
      ConcatSplit(chunks[..|chunks| - 1], i);
      assert chunks[..|chunks| - 1][..i] == chunks[..i];
      assert chunks[..|chunks| - 1][i..] == chunks[i..][..|chunks| - i - 1];
    }
  }

  // ------------------------------------------------------ any order of feed and next

  datatype Op = Feed(data: Bytes) | Next

  /** What a reader holding `unread` hands out over a run of operations, and what it holds then. */
  function Operate(unread: Bytes, ops: seq<Op>): (seq<Record>, Bytes)
    decreases |ops|
  {
    if ops == [] then ([], unread)
    else
      match ops[0]
      case Feed(d) => Operate(unread + d, ops[1..])
      case Next =>
        match Peek(unread)
        case Got(r, n) =>
          var (rs, u) := Operate(unread[n..], ops[1..]);
          ([r] + rs, u)
        case _ => Operate(unread, ops[1..])
  }

  function Fed(ops: seq<Op>): Bytes {
    if ops == [] then [] else (if ops[0].Feed? then ops[0].data else []) + Fed(ops[1..])
  }

  /**
   * In whatever order feeds and takes are interleaved, the records handed out
   * and those still in the buffer are together the records of the whole stream,
   * and it is malformed exactly when the buffer's contents are.
   */
  lemma {:induction false} AnyInterleaving(unread: Bytes, ops: seq<Op>)
    ensures var (rs, u) := Operate(unread, ops);
            var whole := Parse(unread + Fed(ops));
            && whole.records == rs + Parse(u).records
            && whole.malformed == Parse(u).malformed
            && whole.rest == Parse(u).rest
    decreases |ops|
  {
    hide Peek, Parse;
    if ops == [] {
      assert unread + [] == unread;
      assert [] + Parse(unread).records == Parse(unread).records;
    } else {
      match ops[0]
      case Feed(d) =>
        assert unread + (d + Fed(ops[1..])) == unread + d + Fed(ops[1..]);
        AnyInterleaving(unread + d, ops[1..]);
      case Next =>
        assert [] + Fed(ops[1..]) == Fed(ops[1..]);
        match Peek(unread)
        case Got(r, n) =>
          PeekSize(unread);
          PeekExtends(unread, Fed(ops[1..]));
          assert (unread + Fed(ops[1..]))[n..] == unread[n..] + Fed(ops[1..]);
          ParseGot(unread + Fed(ops[1..]), r, n);
          AnyInterleaving(unread[n..], ops[1..]);
          var (rs, u) := Operate(unread[n..], ops[1..]);
          assert [r] + (rs + Parse(u).records) == [r] + rs + Parse(u).records;
        case _ =>
          AnyInterleaving(unread, ops[1..]);
    }
  }

  lemma ParseGot(s: Bytes, r: Record, n: nat)
    requires Peek(s) == Got(r, n) && n <= |s|
    ensures Parse(s) == Parse(s[n..]).(records := [r] + Parse(s[n..]).records)
  {
    hide Peek;
  }
}
