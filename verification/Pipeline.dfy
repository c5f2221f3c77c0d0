/**
 * From the server's output queue through partial sends and arbitrary chunks to
 * the records the other end takes out.
 */
module Pipeline {
  import opened Wrappers
  import opened ByteStrings
  import opened Protocol
  import opened Framing

  const MAX_OUT_QUEUE: nat := 1048576

  /** What one call of send() reports. */
  datatype SendResult = Wrote(n: nat) | Interrupted | WouldBlock | Failed

  /** How many of p pending octets a row of send() results takes, and whether the connection failed. */
  function Progress(p: nat, results: seq<SendResult>): (r: (nat, bool))
    ensures r.0 <= p
    decreases |results|
  {
    if p == 0 || results == [] then (0, false)
    else
      match results[0]
      case Wrote(n) =>
        if n == 0 then (0, true)
        else
          var m := if n < p then n else p;
          var (more, failed) := Progress(p - m, results[1..]);
          (m + more, failed)
      case Interrupted => Progress(p, results[1..])
      case WouldBlock => (0, false)
      case Failed => (0, true)
  }

  /** What a queue holding `pending` holds after a record was offered to it: one that is too long is dropped. */
  function Queued(pending: Bytes, r: Record): Bytes {
    pending + if Fits(r) then Encoded(r) else []
  }

  /** What goes out of a queue holding `pending`, what stays, and whether the connection is kept. */
  function Flushed(pending: Bytes, results: seq<SendResult>): (r: (Bytes, Bytes, bool))
    ensures r.0 + r.1 == pending
  {
    var (n, failed) := Progress(|pending|, results);
    (pending[..n], pending[n..], !failed && |pending| - n <= MAX_OUT_QUEUE)
  }

  lemma NextResult(p: nat, results: seq<SendResult>, k: nat)
    requires k <= |results|
    ensures p == 0 || k == |results| ==> Progress(p, results[k..]) == (0, false)
    ensures p > 0 && k < |results| ==>
              Progress(p, results[k..]) ==
              match results[k]
              case Wrote(n) =>
                (if n == 0 then (0, true)
                 else
                   var m := if n < p then n else p;
                   (m + Progress(p - m, results[k + 1..]).0, Progress(p - m, results[k + 1..]).1))
              case Interrupted => Progress(p, results[k + 1..])
              case WouldBlock => (0, false)
              case Failed => (0, true)
  {
    if k < |results| {
      assert results[k..][1..] == results[k + 1..];
    }
  }

  /** The queue of one connection: octets from `outOff` on are still to be sent. */
  class OutQueue {
    var out: Bytes
    var outOff: nat

    ghost predicate Valid()
      reads this
    {
      outOff <= |out|
    }

    ghost function Pending(): Bytes
      reads this
      requires Valid()
    {
      out[outOff..]
    }

    constructor ()
      ensures Valid() && Pending() == []
    {
      out, outOff := [], 0;
    }

    /** A record that is too long is dropped. */
    method Enqueue(r: Record)
      requires Valid()
      modifies this
      ensures Valid() && Pending() == Queued(old(Pending()), r)
    {
      if |r.body| + 1 > MAX_RECORD {
        return;
      }
      out := out + BigEndian(|r.body| + 1, HDR_LEN);
      out := out + [r.kind];
      out := out + r.body;
      assert Pending() == old(Pending()) + Encoded(r);
    }

    /**
     * Sends until the queue is empty or the socket refuses; `wire` is what went
     * out. Whatever is reclaimed, sent and pending octets together stay the same.
     */
    method FlushOut(results: seq<SendResult>) returns (ok: bool, wire: Bytes)
      requires Valid()
      modifies this
      ensures Valid() && (wire, Pending(), ok) == Flushed(old(Pending()), results)
    {
      hide Progress;
      wire := [];
      var k := 0;
      ghost var queued := Pending();
      ghost var goal := Progress(|queued|, results);
      while |out| - outOff > 0 && k < |results|
        invariant Valid() && 0 <= k <= |results| && wire + Pending() == queued
        invariant goal == (|wire| + Progress(|Pending()|, results[k..]).0, Progress(|Pending()|, results[k..]).1)
      {
        NextResult(|Pending()|, results, k);
        match results[k] {
          case Wrote(n) =>
            if n == 0 {
              return false, wire;
            }
            var m := if n < |out| - outOff then n else |out| - outOff;
            wire := wire + out[outOff..outOff + m];
            outOff := outOff + m;
          case Interrupted =>
          case WouldBlock =>
            NextResult(|Pending()|, results, |results|);
            k := |results|;
            break;
          case Failed =>
            return false, wire;
        }
        k := k + 1;
      }
      NextResult(|Pending()|, results, k);
      if outOff == |out| {
        out := [];
        outOff := 0;
      } else if outOff >= MAX_RECORD {
        out := out[outOff..];
        outOff := 0;
      }
      ok := |out| - outOff <= MAX_OUT_QUEUE;
    }
  }

  // ------------------------------------------------------------ the whole pipeline

  /**
   * What was accepted, the octets queued by the writer, on the wire, and fed to
   * the reader but not yet taken out, and what was taken out. A connection that
   * flushing gave up is not written to any more.
   */
  datatype Pipe = Pipe(open: bool, accepted: seq<Record>, pending: Bytes, wire: Bytes, unread: Bytes, delivered: seq<Record>)

  /** One call of Enqueue or FlushOut, some octets of the wire fed to the reader, or one call of Next. */
  datatype Act = Offer(r: Record) | Flush(results: seq<SendResult>) | Arrive(n: nat) | Take

  function Empty(): Pipe {
    Pipe(true, [], [], [], [], [])
  }

  function Least(a: nat, b: nat): nat {
    if a < b then a else b
  }

  function Act1(p: Pipe, a: Act): Pipe {
    match a
    case Offer(r) =>
      if p.open
      then p.(accepted := if Fits(r) then p.accepted + [r] else p.accepted, pending := Queued(p.pending, r))
      else p
    case Flush(results) =>
      if p.open
      then var (sent, rest, ok) := Flushed(p.pending, results);
           p.(wire := p.wire + sent, pending := rest, open := ok)
      else p
    case Arrive(n) =>
      var m := Least(n, |p.wire|);
      p.(unread := p.unread + p.wire[..m], wire := p.wire[m..])
    case Take =>
      var (head, rest) := Taken(p.unread);
      p.(unread := rest, delivered := if head.Got? then p.delivered + [head.record] else p.delivered)
  }

  function Acts(p: Pipe, acts: seq<Act>): Pipe
    decreases |acts|
  {
    if acts == [] then p else Acts(Act1(p, acts[0]), acts[1..])
  }

  /** What is delivered, followed by what all the octets under way parse to, is what was accepted. */
  predicate Conserved(p: Pipe) {
    var ahead := Parse(p.unread + p.wire + p.pending);
    p.delivered + ahead.records == p.accepted && ahead.rest == [] && !ahead.malformed
  }

  lemma OfferConserves(p: Pipe, r: Record)
    requires Conserved(p) && p.open
    ensures Conserved(Act1(p, Offer(r)))
  {
    hide Peek, Parse, Encoded;
    var q := Act1(p, Offer(r));
    var s := p.unread + p.wire + p.pending;
    if Fits(r) {
      assert q.unread + q.wire + q.pending == s + Encoded(r);
      ParseExtends(s, Encoded(r));
      ParseEncoded([r]);
      assert EncodedAll([r]) == Encoded(r) && [] + Encoded(r) == Encoded(r) by {
        assert [r][1..] == [] && EncodedAll([]) == [];
        assert Encoded(r) + [] == Encoded(r);
      }
      assert q.accepted == p.delivered + (Parse(s).records + [r]);
    } else {
      assert q.pending == p.pending;
    }
  }

  lemma TakeConserves(p: Pipe)
    requires Conserved(p)
    ensures Conserved(Act1(p, Take))
  {
    hide Peek, Parse;
    var q := Act1(p, Take);
    var s := p.unread + p.wire + p.pending;
    match Peek(p.unread)
    case Got(r, n) =>
      PeekSize(p.unread);
      PeekExtends(p.unread, p.wire + p.pending);
      assert p.unread + (p.wire + p.pending) == s;
      assert s[n..] == q.unread + q.wire + q.pending;
      ParseGot(s, r, n);
      assert p.delivered + ([r] + Parse(s[n..]).records) == q.delivered + Parse(s[n..]).records;
    case _ =>
  }

  lemma ActConserves(p: Pipe, a: Act)
    requires Conserved(p)
    ensures Conserved(Act1(p, a))
  {
    var q := Act1(p, a);
    match a
    case Offer(r) =>
      if p.open {
        OfferConserves(p, r);
      }
    case Flush(_) =>
      hide Parse, Flushed;
      assert q.unread + q.wire + q.pending == p.unread + p.wire + p.pending;
    case Arrive(_) =>
      hide Parse;
      assert q.unread + q.wire + q.pending == p.unread + p.wire + p.pending;
    case Take => TakeConserves(p);
  }

  lemma {:induction false} ActsConserve(p: Pipe, acts: seq<Act>)
    requires Conserved(p)
    ensures Conserved(Acts(p, acts))
    decreases |acts|
  {
    hide Conserved, Act1;
    if acts == [] {
    } else {
      ActConserves(p, acts[0]);
      ActsConserve(Act1(p, acts[0]), acts[1..]);
    }
  }

  lemma ConservedFacts(p: Pipe)
    requires Conserved(p)
    ensures Delivering(p)
  {
    hide Peek;
    PeekExtends(p.unread, p.wire + p.pending);
    assert p.unread + (p.wire + p.pending) == p.unread + p.wire + p.pending;
    if p.pending == [] && p.wire == [] && Peek(p.unread) == Need {
      assert p.unread + p.wire + p.pending == p.unread;
    }
  }

  /** In order, without a malformed length, and all of it once nothing is under way. */
  predicate Delivering(p: Pipe) {
    && p.delivered <= p.accepted && Peek(p.unread) != Bad
    && (p.pending == [] && p.wire == [] && Peek(p.unread) == Need ==> p.delivered == p.accepted && p.unread == [])
  }

  lemma EmptyConserved()
    ensures Conserved(Empty())
  {
  }

  /**
   * From empty queues, for every list of records offered, all partial sends and
   * every chunking, the reader yields a prefix of the accepted records, in order,
   * never sees a malformed length, and has yielded all of them once nothing is
   * left under way.
   */
  lemma DeliversWhatWasAccepted(acts: seq<Act>)
    ensures Delivering(Acts(Empty(), acts))
  {
    EmptyConserved();
    hide Conserved, Delivering, Acts;
    ActsConserve(Empty(), acts);
    ConservedFacts(Acts(Empty(), acts));
  }

  // ---------------------------------------------------------- what a flush achieves

  /** send() neither took an octet nor was merely interrupted. */
  predicate Refuses(r: SendResult) {
    r == WouldBlock || r == Failed || r == Wrote(0)
  }

  function Taking(results: seq<SendResult>): nat {
    if results == [] then 0
    else Taking(results[..|results| - 1]) + (if results[|results| - 1].Wrote? then results[|results| - 1].n else 0)
  }

  lemma {:induction false} TakingCons(results: seq<SendResult>)
    requires results != []
    ensures Taking(results) == (if results[0].Wrote? then results[0].n else 0) + Taking(results[1..])
  {
    if |results| == 1 {
      assert results[..0] == [] && results[1..] == [];
    } else {
      var front := results[..|results| - 1];
      TakingCons(front);
      assert results[1..][..|results| - 2] == front[1..];
    }
  }

  lemma {:induction false} ProgressIs(p: nat, results: seq<SendResult>, k: nat)
    requires k <= |results| && forall i :: 0 <= i < k ==> !Refuses(results[i])
    requires k < |results| ==> Refuses(results[k])
    ensures Progress(p, results) == (Least(p, Taking(results[..k])),
                                     k < |results| && results[k] != WouldBlock && Taking(results[..k]) < p)
    decreases k
  {
    if k == 0 {
      assert results[..0] == [];
    } else {
      var rest := results[1..];
      assert results[..k][1..] == rest[..k - 1] && results[..k][0] == results[0];
      TakingCons(results[..k]);
      forall i | 0 <= i < k - 1 ensures !Refuses(rest[i]) {
        assert rest[i] == results[i + 1];
      }
      var m := if results[0].Wrote? then Least(results[0].n, p) else 0;
      ProgressIs(p - m, rest, k - 1);
      ProgressNothing(rest);
    }
  }

  lemma ProgressNothing(results: seq<SendResult>)
    ensures Progress(0, results) == (0, false)
  {
  }

  /**
   * A flush sends as many octets as send() took before it first refused, or all
   * of them; the connection is given up if and only if send() failed, or took
   * nothing, while octets were pending, or too many are left.
   */
  lemma FlushSends(pending: Bytes, results: seq<SendResult>, k: nat)
    requires k <= |results| && (forall i :: 0 <= i < k ==> !Refuses(results[i])) && (k < |results| ==> Refuses(results[k]))
    ensures var (sent, rest, ok) := Flushed(pending, results);
            var took := Taking(results[..k]);
            && |sent| == Least(|pending|, took) && sent == pending[..|sent|] && rest == pending[|sent|..]
            && (!ok <==> (took < |pending| && k < |results| && results[k] in {Failed, Wrote(0)})
                         || took + MAX_OUT_QUEUE < |pending|)
  {
    hide Progress;
    ProgressIs(|pending|, results, k);
  }

  function Takes(k: nat): (acts: seq<Act>)
    ensures |acts| == k
  {
    seq(k, i => Take)
  }

  /** As many takes as there are complete records hand all of them out. */
  lemma {:induction false} TakesDeliver(p: Pipe)
    requires !Parse(p.unread).malformed
    ensures var q := Acts(p, Takes(|Parse(p.unread).records|));
            && q.delivered == p.delivered + Parse(p.unread).records
            && q == p.(unread := Parse(p.unread).rest, delivered := q.delivered)
    decreases |p.unread|
  {
    hide Peek;
    PeekSize(p.unread);
    match Peek(p.unread)
    case Got(r, n) =>
      var k := |Parse(p.unread).records|;
      var q := Act1(p, Take);
      assert Takes(k)[1..] == Takes(k - 1);
      assert q == p.(unread := p.unread[n..], delivered := p.delivered + [r]);
      TakesDeliver(q);
      assert p.delivered + [r] + Parse(q.unread).records == p.delivered + ([r] + Parse(q.unread).records);
    case Need => assert p.delivered + [] == p.delivered;
    case Bad =>
  }

  /** The acts that bring over what is under way: a flush that takes all, the whole wire, and enough takes. */
  function Finishing(p: Pipe): seq<Act> {
    [Flush([Wrote(|p.pending|)]), Arrive(|p.wire| + |p.pending|)]
    + Takes(if |p.delivered| < |p.accepted| then |p.accepted| - |p.delivered| else 0)
  }

  /** From every state that can be reached with the connection kept, that delivers everything that was accepted. */
  lemma EverythingCanArrive(acts: seq<Act>)
    requires Acts(Empty(), acts).open
    ensures var p := Acts(Empty(), acts);
            var q := Acts(p, Finishing(p));
            q.delivered == q.accepted == p.accepted && q.pending == q.wire == q.unread == []
  {
    var p := Acts(Empty(), acts);
    assert Conserved(p) by {
      EmptyConserved();
      ActsConserve(Empty(), acts);
    }
    BroughtOver(p);
    var s := p.unread + p.wire + p.pending;
    var brought := p.(pending := [], wire := [], unread := s, open := true);
    assert p.delivered + Parse(s).records == p.accepted && Parse(s).rest == [] && !Parse(s).malformed;
    hide Parse, Act1, Acts, Peek, Conserved;
    TakesDeliver(brought);
    assert brought == p.(pending := [], wire := [], unread := s);
  }

  lemma FlushesAll(pending: Bytes)
    ensures Flushed(pending, [Wrote(|pending|)]) == (pending, [], true)
  {
    var all := [Wrote(|pending|)];
    ProgressNothing(all[1..]);
    assert Progress(|pending|, all) == (|pending|, false);
    assert pending[..|pending|] == pending && pending[|pending|..] == [];
  }

  lemma BroughtOver(p: Pipe)
    requires p.open
    ensures Acts(p, Finishing(p))
         == Acts(p.(pending := [], wire := [], unread := p.unread + p.wire + p.pending), Finishing(p)[2..])
    ensures Finishing(p)[2..] == Takes(if |p.delivered| < |p.accepted| then |p.accepted| - |p.delivered| else 0)
  {
    var flush, arrive := Flush([Wrote(|p.pending|)]), Arrive(|p.wire| + |p.pending|);
    FlushesAll(p.pending);
    hide Flushed, Taken, Acts;
    var q := Act1(p, flush);
    assert q == p.(wire := p.wire + p.pending, pending := []);
    assert Act1(q, arrive) == q.(unread := p.unread + p.wire + p.pending, wire := []);
    TwoActs(p, flush, arrive, Takes(if |p.delivered| < |p.accepted| then |p.accepted| - |p.delivered| else 0));
  }

  lemma TwoActs(p: Pipe, a: Act, b: Act, rest: seq<Act>)
    ensures Acts(p, [a, b] + rest) == Acts(Act1(Act1(p, a), b), rest)
    ensures ([a, b] + rest)[2..] == rest
  {
    hide Act1;
    assert ([a, b] + rest)[1..] == [b] + rest && ([b] + rest)[1..] == rest;
  }

  lemma {:induction false} ActsOneMore(p: Pipe, acts: seq<Act>, a: Act)
    ensures Acts(p, acts + [a]) == Act1(Acts(p, acts), a)
    decreases |acts|
  {
    hide Act1;
    if acts == [] {
      assert ([] + [a])[1..] == [];
    } else {
      assert (acts + [a])[1..] == acts[1..] + [a];
      ActsOneMore(Act1(p, acts[0]), acts[1..], a);
    }
  }

  /** An OutQueue and a RecordReader, driven through the acts, go through exactly these states. */
  method Drive(acts: seq<Act>) returns (p: Pipe)
    ensures p == Acts(Empty(), acts) && Delivering(p)
  {
    hide *;
    var queue := new OutQueue();
    var reader := new RecordReader();
    p := Empty();
    var i := 0;
    NoActs();
    assert acts[..0] == [];
    while i < |acts|
      invariant 0 <= i <= |acts| && fresh(queue) && fresh(reader) && queue.Valid() && reader.Valid()
      invariant queue.Pending() == p.pending && reader.Unread() == p.unread
      invariant p == Acts(Empty(), acts[..i])
    {
      ActsOneMore(Empty(), acts[..i], acts[i]);
      assert acts[..i + 1] == acts[..i] + [acts[i]];
      p := Driven(queue, reader, p, acts[i]);
      i := i + 1;
    }
    assert acts[..i] == acts;
    DeliversWhatWasAccepted(acts);
  }

  lemma NoActs()
    ensures Acts(Empty(), []) == Empty() && Empty().pending == Empty().unread == []
  {
  }

  method Driven(queue: OutQueue, reader: RecordReader, p: Pipe, a: Act) returns (q: Pipe)
    requires queue.Valid() && reader.Valid() && queue.Pending() == p.pending && reader.Unread() == p.unread
    modifies queue, reader
    ensures queue.Valid() && reader.Valid() && queue.Pending() == q.pending && reader.Unread() == q.unread
    ensures q == Act1(p, a)
  {
    hide Flushed, Taken, Queued, Peek, Encoded;
    q := p;
    match a {
      case Offer(r) =>
        if p.open {
          queue.Enqueue(r);
          q := q.(accepted := if Fits(r) then p.accepted + [r] else p.accepted, pending := queue.out[queue.outOff..]);
        }
      case Flush(results) =>
        if p.open {
          var ok, sent := queue.FlushOut(results);
          q := q.(open := ok, wire := p.wire + sent, pending := queue.out[queue.outOff..]);
        }
      case Arrive(n) =>
        var m := Least(n, |p.wire|);
        reader.Feed(p.wire[..m]);
        q := q.(unread := reader.buf[reader.off..], wire := p.wire[m..]);
      case Take =>
        var head := reader.Next();
        q := q.(unread := reader.buf[reader.off..],
                delivered := if head.Got? then p.delivered + [head.record] else p.delivered);
    }
  }
}
