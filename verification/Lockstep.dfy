/**
 * Two session endpoints over a network that may drop, repeat, reorder, reflect
 * or invent records: each side still opens only a prefix of what the other
 * sealed.
 */
module Lockstep {
  import opened Wrappers
  import opened ByteStrings
  import opened Crypto
  import opened Session

  /** `seen` is every record the network has been given. */
  datatype Link = Link(client: Endpoint, server: Endpoint, seen: set<Cipher>,
                       clientSent: seq<string>, clientGot: seq<string>,
                       serverSent: seq<string>, serverGot: seq<string>)

  datatype Move = Send(who: Role, text: string) | Arrive(to: Role, c: Cipher)

  function Established(k: Keys): Link {
    Link(Endpoint(k, Client, true, 0, 0), Endpoint(k, Server, true, 0, 0), {}, [], [], [], [])
  }

  function End(l: Link, r: Role): Endpoint {
    if r == Client then l.client else l.server
  }

  function After(l: Link, m: Move): Link {
    match m
    case Send(Client, text) =>
      (match SealNext(l.client, text)
       case (e, None) => l.(client := e)
       case (e, Some(c)) => l.(client := e, seen := l.seen + {c}, clientSent := l.clientSent + [text]))
    case Send(Server, text) =>
      (match SealNext(l.server, text)
       case (e, None) => l.(server := e)
       case (e, Some(c)) => l.(server := e, seen := l.seen + {c}, serverSent := l.serverSent + [text]))
    case Arrive(Client, c) =>
      (match OpenNext(l.client, c)
       case (e, None) => l.(client := e)
       case (e, Some(text)) => l.(client := e, clientGot := l.clientGot + [text]))
    case Arrive(Server, c) =>
      match OpenNext(l.server, c)
      case (e, None) => l.(server := e)
      case (e, Some(text)) => l.(server := e, serverGot := l.serverGot + [text])
  }

  /** The network cannot seal under the session's keys; counters stay below 2^64. */
  predicate Possible(l: Link, m: Move) {
    match m
    case Send(r, _) => End(l, r).tx + 1 < TWO_64
    case Arrive(_, c) => c in l.seen || c.Foreign? || (c.key != l.client.keys.c2s && c.key != l.client.keys.s2c)
  }

  /** One direction: everything in `seen` under the sender's key is what the sender sealed at that position. */
  ghost predicate OneWay(from: Endpoint, to: Endpoint, sent: seq<string>, got: seq<string>, seen: set<Cipher>) {
    && from.up && to.up && from.keys == to.keys && from.role != to.role
    && from.tx == |sent| < TWO_64 && to.rx == |got| && got <= sent
    && (forall c :: c in seen && c.Sealed? && c.key == SendKey(from) ==>
                      c.seqNo < |sent| && c == RecordNo(from, c.seqNo, sent[c.seqNo]))
  }

  ghost predicate Lockstepped(l: Link) {
    && l.client.role == Client && l.client.keys.c2s != l.client.keys.s2c
    && OneWay(l.client, l.server, l.clientSent, l.serverGot, l.seen)
    && OneWay(l.server, l.client, l.serverSent, l.clientGot, l.seen)
  }

  lemma SealKeepsWay(from: Endpoint, to: Endpoint, sent: seq<string>, got: seq<string>, seen: set<Cipher>, text: string)
    requires OneWay(from, to, sent, got, seen) && from.tx + 1 < TWO_64
    ensures var (e, c) := SealNext(from, text);
            c.Some? && OneWay(e, to, sent + [text], got, seen + {c.value})
  {
    hide NonceOf;
  }

  /** Records of the other direction, and the other direction's counters, do not matter. */
  lemma OtherWay(from: Endpoint, to: Endpoint, from': Endpoint, to': Endpoint,
                 sent: seq<string>, got: seq<string>, seen: set<Cipher>, c: Cipher)
    requires OneWay(from, to, sent, got, seen)
    requires from' == from.(rx := from'.rx) && to' == to.(tx := to'.tx)
    requires c.Foreign? || c.key != SendKey(from)
    ensures OneWay(from', to', sent, got, seen + {c})
    ensures OneWay(from', to', sent, got, seen)
  {
    hide NonceOf;
  }

  /** A record is accepted exactly when it is the next one its receiver is owed. */
  lemma AcceptedIffNext(from: Endpoint, to: Endpoint, sent: seq<string>, got: seq<string>, seen: set<Cipher>, c: Cipher)
    requires OneWay(from, to, sent, got, seen)
    requires c in seen || c.Foreign? || c.key != SendKey(from)
    ensures var (e, text) := OpenNext(to, c);
            && (text.Some? <==> |got| < |sent| && c == RecordNo(from, |got|, sent[|got|]))
            && (text.Some? ==> text.value == sent[|got|] && OneWay(from, e, sent, got + [text.value], seen))
            && (text.None? ==> e == to)
  {
    hide NonceOf;
    assert ReceiveKey(to) == SendKey(from);
  }

  lemma WayEnds(from: Endpoint, to: Endpoint, sent: seq<string>, got: seq<string>, seen: set<Cipher>)
    requires OneWay(from, to, sent, got, seen)
    ensures from.up && to.up && from.keys == to.keys && from.role != to.role
    ensures to.rx == |got| && got <= sent
  {
  }

  lemma MoveKeeps(l: Link, m: Move)
    requires Lockstepped(l) && Possible(l, m)
    ensures Lockstepped(After(l, m))
  {
    hide OneWay, NonceOf;
    var n := After(l, m);
    WayEnds(l.client, l.server, l.clientSent, l.serverGot, l.seen);
    match m
    case Send(Client, text) =>
      var c := SealNext(l.client, text).1;
      SealKeepsWay(l.client, l.server, l.clientSent, l.serverGot, l.seen, text);
      OtherWay(l.server, l.client, n.server, n.client, l.serverSent, l.clientGot, l.seen, c.value);
    case Send(Server, text) =>
      var c := SealNext(l.server, text).1;
      SealKeepsWay(l.server, l.client, l.serverSent, l.clientGot, l.seen, text);
      OtherWay(l.client, l.server, n.client, n.server, l.clientSent, l.serverGot, l.seen, c.value);
    case Arrive(Client, c) =>
      AcceptedIffNext(l.server, l.client, l.serverSent, l.clientGot, l.seen, c);
      OtherWay(l.client, l.server, n.client, n.server, l.clientSent, l.serverGot, l.seen, Foreign([]));
    case Arrive(Server, c) =>
      AcceptedIffNext(l.client, l.server, l.clientSent, l.serverGot, l.seen, c);
      OtherWay(l.server, l.client, n.server, n.client, l.serverSent, l.clientGot, l.seen, Foreign([]));
  }

  function Played(l: Link, moves: seq<Move>): Link
    decreases |moves|
  {
    if moves == [] then l else Played(After(l, moves[0]), moves[1..])
  }

  predicate AllPossible(l: Link, moves: seq<Move>)
    decreases |moves|
  {
    moves == [] || (Possible(l, moves[0]) && AllPossible(After(l, moves[0]), moves[1..]))
  }

  lemma {:induction false} PlayedKeeps(l: Link, moves: seq<Move>)
    requires Lockstepped(l) && AllPossible(l, moves)
    ensures Lockstepped(Played(l, moves))
    decreases |moves|
  {
    if moves == [] {
    } else {
      hide Lockstepped, Possible, After;
      MoveKeeps(l, moves[0]);
      PlayedKeeps(After(l, moves[0]), moves[1..]);
    }
  }

  /** From derived keys, whatever the network does, each side has opened a prefix of what the other sealed. */
  lemma OpenedIsPrefix(z: Bytes, th: seq<Octet>, moves: seq<Move>)
    requires AllPossible(Established(DeriveKeys(z, th)), moves)
    ensures var l := Played(Established(DeriveKeys(z, th)), moves);
            && l.serverGot <= l.clientSent && l.clientGot <= l.serverSent
            && l.server.rx == |l.serverGot| && l.client.rx == |l.clientGot|
  {
    hide DeriveKeys;
    DirectionsDiffer(z, th);
    PlayedKeeps(Established(DeriveKeys(z, th)), moves);
  }

  // ----------------------------------------------------------- a record that is lost

  /** The server seals a record that the network is never given. */
  function Lost(l: Link, text: string): Link {
    l.(server := SealNext(l.server, text).0, serverSent := l.serverSent + [text])
  }

  /** The server's n-th record is missing, and the client has not got past it. */
  ghost predicate Stuck(l: Link, n: nat) {
    && Lockstepped(l) && n < |l.serverSent| && |l.clientGot| <= n
    && RecordNo(l.server, n, l.serverSent[n]) !in l.seen
  }

  lemma LostIsStuck(l: Link, text: string)
    requires Lockstepped(l) && l.server.tx + 1 < TWO_64
    ensures Stuck(Lost(l, text), |l.serverSent|)
  {
    hide NonceOf;
    var n := Lost(l, text);
    assert OneWay(n.server, n.client, n.serverSent, n.clientGot, l.seen);
    assert OneWay(n.client, n.server, n.clientSent, n.serverGot, l.seen);
  }

  lemma MoveStaysStuck(l: Link, m: Move, n: nat)
    requires Stuck(l, n) && Possible(l, m)
    ensures Stuck(After(l, m), n) && After(l, m).serverSent[..n + 1] == l.serverSent[..n + 1]
  {
    MoveKeeps(l, m);
    WayEnds(l.server, l.client, l.serverSent, l.clientGot, l.seen);
    var lost := RecordNo(l.server, n, l.serverSent[n]);
    match m
    case Arrive(Client, c) =>
      AcceptedIffNext(l.server, l.client, l.serverSent, l.clientGot, l.seen, c);
      hide OneWay, NonceOf, Lockstepped;
      assert c != lost;
    case _ => hide OneWay, NonceOf, Lockstepped;
  }

  lemma {:induction false} PlayedStaysStuck(l: Link, moves: seq<Move>, n: nat)
    requires Stuck(l, n) && AllPossible(l, moves)
    ensures Stuck(Played(l, moves), n) && Played(l, moves).serverSent[..n + 1] == l.serverSent[..n + 1]
    decreases |moves|
  {
    if moves == [] {
    } else {
      MoveStaysStuck(l, moves[0], n);
      hide Stuck, Possible, After;
      StuckLength(After(l, moves[0]), n);
      PlayedStaysStuck(After(l, moves[0]), moves[1..], n);
    }
  }

  lemma StuckLength(l: Link, n: nat)
    requires Stuck(l, n)
    ensures n < |l.serverSent|
  {
  }

  /**
   * Once the server has sealed a record that is not sent, the client never gets
   * past it: whatever the network does, it has opened at most what was sealed
   * before, and every record sealed after the lost one is refused.
   */
  lemma LossStopsClient(l: Link, text: string, moves: seq<Move>, j: nat)
    requires Lockstepped(l) && l.server.tx + 1 < TWO_64 && AllPossible(Lost(l, text), moves)
    ensures var e := Played(Lost(l, text), moves);
            && e.clientGot <= l.serverSent
            && (|l.serverSent| < j < |e.serverSent| ==>
                  OpenNext(e.client, RecordNo(e.server, j, e.serverSent[j])) == (e.client, None))
  {
    var n := |l.serverSent|;
    var l1 := Lost(l, text);
    var e := Played(l1, moves);
    LostIsStuck(l, text);
    PlayedStaysStuck(l1, moves, n);
    assert l1.serverSent[..n + 1] == l1.serverSent && l1.serverSent[..n] == l.serverSent;
    assert e.serverSent[..n] == e.serverSent[..n + 1][..n] == l.serverSent;
    WayEnds(e.server, e.client, e.serverSent, e.clientGot, e.seen);
    assert e.clientGot == e.serverSent[..|e.clientGot|] == e.serverSent[..n][..|e.clientGot|];
    hide OneWay, NonceOf;
  }
}
