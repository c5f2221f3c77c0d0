/**
 * What the server does with the records of one connection: handshake records
 * drive the handshake, sealed records become lines for the relay, and anything
 * else costs the connection. A line is only ever handled after it was
 * authenticated.
 */
module Dispatch {
  import opened Wrappers
  import opened ByteStrings
  import opened Crypto
  import opened Protocol
  import opened Session
  import Framing
  import Grammar
  import Handshake
  import Lockstep
  import Relay
  import Dh

  /** A complete record, by type. */
  datatype Arrival = Hello(body: Bytes) | Data(c: Cipher) | Other(kind: Byte)

  datatype Channel = Channel(hs: Handshake.ServerState, sess: Endpoint)

  datatype Reaction =
    | Replies(replies: seq<Bytes>)
    | Established
    | Alert(reason: string)
    | Handle(line: string)
    | Drop

  function React(v: Channel, a: Arrival, rnd: Option<nat>): (Channel, Reaction) {
    match a
    case Hello(body) =>
      if v.sess.up then (v, Drop)
      else
        var (hs, status) := Handshake.FeedServer(v.hs, body, rnd);
        (match status
         case Failed(e) => (v.(hs := hs), Alert(e))
         case NeedMore(rs) => (v.(hs := hs), Replies(rs))
         case Done => (v.(hs := hs, sess := Endpoint(hs.keys, Server, true, 0, 0)), Established))
    case Data(c) =>
      if !v.sess.up || c.Length() > MAX_PLAINTEXT + TAG_LEN then (v, Drop)
      else
        (match OpenNext(v.sess, c)
         case (_, None) => (v, Drop)
         case (e, Some(text)) => (v.(sess := e), Handle(text)))
    case Other(_) => (v, Drop)
  }

  /** The connection and the relay after a row of records; false means the connection is to be dropped at once. */
  datatype Outcome = Outcome(view: Channel, relay: Relay.State, ok: bool, replies: seq<Bytes>, alerts: seq<string>,
                             lines: seq<string>)

  function Closed(s: Relay.State, fd: int): Relay.State
    requires fd in s.conns
  {
    s.(conns := s.conns[fd := Relay.Closing(s.conns[fd])])
  }

  /** Records are taken in order until there are none left, one is fatal, or a line asked to close. */
  ghost function Drained(v: Channel, s: Relay.State, fd: int, arrivals: seq<Arrival>, rnds: seq<Option<nat>>): Outcome
    requires fd in s.conns && |arrivals| == |rnds|
    decreases |arrivals|
  {
    if arrivals == [] then Outcome(v, s, true, [], [], [])
    else
      match React(v, arrivals[0], rnds[0])
      case (w, Drop) => Outcome(w, s, false, [], [], [])
      case (w, Alert(e)) => Outcome(w, Closed(s, fd), true, [], [e], [])
      case (w, Established) => Drained(w, Relay.Secured(s, fd), fd, arrivals[1..], rnds[1..])
      case (w, Replies(rs)) =>
        var d := Drained(w, s, fd, arrivals[1..], rnds[1..]);
        d.(replies := rs + d.replies)
      case (w, Handle(text)) =>
        var after := Relay.Line(s, fd, text);
        if after.conns[fd].wantClose then Outcome(w, after, true, [], [], [text])
        else
          var d := Drained(w, after, fd, arrivals[1..], rnds[1..]);
          d.(lines := [text] + d.lines)
  }

  /** A new connection of a server with these credentials. */
  function Unsecured(cert: Bytes, signer: Handshake.Signer): Channel {
    Channel(Handshake.Fresh(cert, Some(signer)), Endpoint(BlankKeys(), Client, false, 0, 0))
  }

  class Connection {
    const hs: Handshake.ServerHandshake
    const sess: Session

    function View(): Channel
      reads this, hs, sess
    {
      Channel(hs.View(), sess.View())
    }

    constructor (cert: Bytes, key: Handshake.Signer)
      ensures fresh(hs) && fresh(sess)
      ensures View() == Unsecured(cert, key)
    {
      hs := new Handshake.ServerHandshake();
      sess := new Session();
      new;
      hs.SetCredentials(cert, key);
    }

    /** Handles one record. */
    method OnRecord(a: Arrival, rnd: Option<nat>) returns (r: Reaction)
      modifies hs, sess
      ensures (View(), r) == React(old(View()), a, rnd)
    {
      hide Handshake.FeedServer, OpenNext;
      if a.Hello? {
        if sess.up {
          return Drop;
        }
        var status := hs.Feed(a.body, rnd);
        if status.Failed? {
          return Alert(status.error);
        }
        if status.Done? {
          sess.Install(hs.keys, Server);
          return Established;
        }
        return Replies(status.replies);
      }
      if a.Other? {
        return Drop;
      }
      if !sess.up {
        return Drop;
      }
      if a.c.Length() > MAX_PLAINTEXT + TAG_LEN {
        return Drop;
      }
      var line := sess.Open(a.c);
      if line.None? {
        return Drop;
      }
      r := Handle(line.value);
    }

    /** Dispatches every complete record currently buffered. */
    method DrainRecords(server: Relay.Server, fd: int, arrivals: seq<Arrival>, rnds: seq<Option<nat>>)
      returns (ok: bool, replies: seq<Bytes>, alerts: seq<string>, lines: seq<string>)
      requires fd in server.conns && |arrivals| == |rnds|
      modifies hs, sess, server
      ensures Outcome(View(), server.View(), ok, replies, alerts, lines)
           == Drained(old(View()), old(server.View()), fd, arrivals, rnds)
    {
      hide React, Drained, Relay.Line;
      replies, alerts, lines := [], [], [];
      var i := 0;
      assert arrivals[0..] == arrivals && rnds[0..] == rnds;
      ghost var goal := Drained(View(), server.View(), fd, arrivals, rnds);
      Nothing(goal);
      while i < |arrivals|
        invariant 0 <= i <= |arrivals| && alerts == [] && fd in server.conns
        invariant goal == After(replies, lines, Drained(View(), server.View(), fd, arrivals[i..], rnds[i..]))
      {
        NextRecord(View(), server.View(), fd, arrivals, rnds, i, replies, lines);
        var reaction := OnRecord(arrivals[i], rnds[i]);
        if reaction.Drop? {
          return false, replies, alerts, lines;
        }
        if reaction.Alert? {
          server.CloseSoon(fd);
          return true, replies, [reaction.reason], lines;
        }
        if reaction.Replies? {
          replies := replies + reaction.replies;
        } else if reaction.Established? {
          server.Secure(fd);
        } else {
          server.HandleLine(fd, reaction.line);
          lines := lines + [reaction.line];
          if server.conns[fd].wantClose {
            return true, replies, alerts, lines;
          }
        }
        i := i + 1;
      }
      NoRecords(View(), server.View(), fd, arrivals[i..], rnds[i..], replies, lines);
      ok := true;
    }
  }

  /** d, with what was already produced in front. */
  function After(replies: seq<Bytes>, lines: seq<string>, d: Outcome): Outcome {
    d.(replies := replies + d.replies, lines := lines + d.lines)
  }

  lemma Nothing(d: Outcome)
    ensures After([], [], d) == d
  {
  }

  lemma NoRecords(v: Channel, s: Relay.State, fd: int, arrivals: seq<Arrival>, rnds: seq<Option<nat>>,
                  replies: seq<Bytes>, lines: seq<string>)
    requires fd in s.conns && arrivals == [] && rnds == []
    ensures After(replies, lines, Drained(v, s, fd, arrivals, rnds)) == Outcome(v, s, true, replies, [], lines)
  {
  }

  /** One turn of the loop. */
  lemma NextRecord(v: Channel, s: Relay.State, fd: int, arrivals: seq<Arrival>, rnds: seq<Option<nat>>, i: nat,
                   replies: seq<Bytes>, lines: seq<string>)
    requires fd in s.conns && |arrivals| == |rnds| && i < |arrivals|
    ensures var (w, r) := React(v, arrivals[i], rnds[i]);
            var d := After(replies, lines, Drained(v, s, fd, arrivals[i..], rnds[i..]));
            && (r.Drop? ==> d == Outcome(w, s, false, replies, [], lines))
            && (r.Alert? ==> d == Outcome(w, Closed(s, fd), true, replies, [r.reason], lines))
            && (r.Established? ==>
                  d == After(replies, lines, Drained(w, Relay.Secured(s, fd), fd, arrivals[i + 1..], rnds[i + 1..])))
            && (r.Replies? ==>
                  d == After(replies + r.replies, lines, Drained(w, s, fd, arrivals[i + 1..], rnds[i + 1..])))
            && (r.Handle? ==>
                  var after := Relay.Line(s, fd, r.line);
                  d == if after.conns[fd].wantClose then Outcome(w, after, true, replies, [], lines + [r.line])
                       else After(replies, lines + [r.line], Drained(w, after, fd, arrivals[i + 1..], rnds[i + 1..])))
  {
    hide React, Relay.Line;
    assert arrivals[i..][1..] == arrivals[i + 1..] && rnds[i..][1..] == rnds[i + 1..];
    var (w, r) := React(v, arrivals[i], rnds[i]);
    match r
    case Replies(rs) =>
      var d := Drained(w, s, fd, arrivals[i + 1..], rnds[i + 1..]);
      assert replies + (rs + d.replies) == replies + rs + d.replies;
    case Handle(text) =>
      var after := Relay.Line(s, fd, text);
      if !after.conns[fd].wantClose {
        var d := Drained(w, after, fd, arrivals[i + 1..], rnds[i + 1..]);
        assert lines + ([text] + d.lines) == lines + [text] + d.lines;
      }
    case _ =>
  }

  // ------------------------------------------------------------------ properties

  /** The relay's lines of this connection, one after the other. */
  ghost function Handled(s: Relay.State, fd: int, lines: seq<string>): Relay.State
    requires fd in s.conns
    decreases |lines|
  {
    if lines == [] then s else Handled(Relay.Line(s, fd, lines[0]), fd, lines[1..])
  }

  /** The session is up exactly when the handshake is complete, and then runs under its keys; the relay knows. */
  ghost predicate Gated(v: Channel, s: Relay.State, fd: int) {
    && fd in s.conns && s.conns[fd].up == v.sess.up
    && (v.sess.up <==> v.hs.step == Handshake.Complete)
    && (v.sess.up ==> v.sess.keys == v.hs.keys && v.sess.role == Server)
  }

  /**
   * No line reaches the relay before the handshake is complete, and none that a
   * client could not have sent; once the session is up, the relay has handled
   * exactly the lines reported.
   */
  lemma {:induction false} LinesAreGated(v: Channel, s: Relay.State, fd: int, arrivals: seq<Arrival>, rnds: seq<Option<nat>>)
    requires Gated(v, s, fd) && |arrivals| == |rnds|
    ensures var d := Drained(v, s, fd, arrivals, rnds);
            && Gated(d.view, d.relay, fd)
            && (v.sess.up ==> d.view.hs == v.hs && d.replies == [] && d.alerts == [] && d.relay == Handled(s, fd, d.lines))
            && (d.lines != [] ==> d.view.hs.step == Handshake.Complete)
            && (forall i :: 0 <= i < |d.lines| ==> |d.lines[i]| <= MAX_PLAINTEXT)
    decreases |arrivals|
  {
    if arrivals == [] {
    } else {
      ReactGated(v, arrivals[0], rnds[0], s, fd);
      hide React, Relay.Line;
      var (w, r) := React(v, arrivals[0], rnds[0]);
      match r
      case Replies(_) => LinesAreGated(w, s, fd, arrivals[1..], rnds[1..]);
      case Established => LinesAreGated(w, Relay.Secured(s, fd), fd, arrivals[1..], rnds[1..]);
      case Handle(text) =>
        LineKeepsUp(s, fd, text);
        LinesAreGated(w, Relay.Line(s, fd, text), fd, arrivals[1..], rnds[1..]);
      case _ =>
    }
  }

  lemma LineKeepsUp(s: Relay.State, fd: int, line: string)
    requires fd in s.conns
    ensures Relay.Line(s, fd, line).conns[fd].up == s.conns[fd].up
  {
    hide Grammar.Split, Grammar.Username, Relay.LineFits, Relay.UsersLine;
  }

  lemma ReactGated(v: Channel, a: Arrival, rnd: Option<nat>, s: Relay.State, fd: int)
    requires Gated(v, s, fd)
    ensures var (w, r) := React(v, a, rnd);
            && (!r.Established? ==> Gated(w, s, fd))
            && (r.Established? ==> Gated(w, Relay.Secured(s, fd), fd))
            && (r.Alert? ==> Gated(w, Closed(s, fd), fd))
            && (v.sess.up ==> w.hs == v.hs && !r.Replies? && !r.Alert? && !r.Established?)
            && (r.Handle? ==> w.sess.up && |r.line| <= MAX_PLAINTEXT)
  {
    hide Dh.PublicBytes, Dh.SharedSecret, DeriveKeys, TranscriptHash, Handshake.FieldOf;
  }

  /**
   * Before the session is up only handshake records are taken, and they fare as
   * the handshake says; once it is up only a sealed record that opens and is not
   * too large. Every other record is fatal and changes nothing.
   */
  lemma FatalExactly(v: Channel, a: Arrival, rnd: Option<nat>)
    ensures var (w, r) := React(v, a, rnd);
            && (r.Drop? <==> if v.sess.up then !(a.Data? && a.c.Length() <= 8208 && OpenNext(v.sess, a.c).1.Some?)
                             else !a.Hello?)
            && (r.Drop? ==> w == v)
            && (!v.sess.up && a.Hello? ==>
                  var status := Handshake.FeedServer(v.hs, a.body, rnd).1;
                  && (r.Established? <==> status.Done?) && (r.Replies? <==> status.NeedMore?)
                  && (r.Alert? <==> status.Failed?) && (w.sess.up <==> status.Done?))
            && (v.sess.up && !r.Drop? ==> w.sess == OpenNext(v.sess, a.c).0 && OpenNext(v.sess, a.c).1 == Some(r.line))
  {
    hide Handshake.FeedServer, OpenNext;
  }

  /** Under any network a sealed record is handled exactly when it is the next one owed and fits; otherwise it is fatal. */
  lemma NextOrFatal(v: Channel, client: Endpoint, sent: seq<string>, got: seq<string>, seen: set<Cipher>, c: Cipher,
                    rnd: Option<nat>)
    requires v.sess.up && Lockstep.OneWay(client, v.sess, sent, got, seen)
    requires c in seen || c.Foreign? || c.key != SendKey(client)
    ensures var (w, r) := React(v, Data(c), rnd);
            if |got| < |sent| && c == RecordNo(client, |got|, sent[|got|]) && |sent[|got|]| <= MAX_PLAINTEXT
            then r == Handle(sent[|got|]) else r == Drop && w == v
  {
    Lockstep.AcceptedIffNext(client, v.sess, sent, got, seen, c);
    FatalExactly(v, Data(c), rnd);
    hide OpenNext, Lockstep.OneWay, React;
  }

  /** A failed handshake is reported once, ends the processing, and asks for the connection to be closed. */
  lemma {:induction false} AlertsEnd(v: Channel, s: Relay.State, fd: int, arrivals: seq<Arrival>, rnds: seq<Option<nat>>)
    requires fd in s.conns && |arrivals| == |rnds|
    ensures var d := Drained(v, s, fd, arrivals, rnds);
            && fd in d.relay.conns && |d.alerts| <= 1
            && (d.alerts != [] ==> d.ok && d.relay.conns[fd].wantClose && !d.view.sess.up && d.lines == [])
    decreases |arrivals|
  {
    if arrivals == [] {
    } else {
      FatalExactly(v, arrivals[0], rnds[0]);
      hide React, Relay.Line, OpenNext, Handshake.FeedServer;
      var (w, r) := React(v, arrivals[0], rnds[0]);
      match r
      case Replies(_) => AlertsEnd(w, s, fd, arrivals[1..], rnds[1..]);
      case Established => UpNeverAlerts(w, Relay.Secured(s, fd), fd, arrivals[1..], rnds[1..]);
      case Handle(text) => UpNeverAlerts(w, Relay.Line(s, fd, text), fd, arrivals[1..], rnds[1..]);
      case _ =>
    }
  }

  lemma {:induction false} UpNeverAlerts(v: Channel, s: Relay.State, fd: int, arrivals: seq<Arrival>,
                                         rnds: seq<Option<nat>>)
    requires fd in s.conns && |arrivals| == |rnds| && v.sess.up
    ensures var d := Drained(v, s, fd, arrivals, rnds); fd in d.relay.conns && d.alerts == []
    decreases |arrivals|
  {
    if arrivals == [] {
    } else {
      UpReaction(v, arrivals[0], rnds[0]);
      StaysUp(v, arrivals[0], rnds[0]);
      hide React, Relay.Line, OpenNext;
      var (w, r) := React(v, arrivals[0], rnds[0]);
      if r.Handle? {
        UpNeverAlerts(w, Relay.Line(s, fd, r.line), fd, arrivals[1..], rnds[1..]);
      }
    }
  }

  lemma StaysUp(v: Channel, a: Arrival, rnd: Option<nat>)
    requires v.sess.up
    ensures React(v, a, rnd).0.sess.up
  {
  }

  /** Every sealed arrival is one the network was given, or not under the client's key. */
  ghost predicate Possible(client: Endpoint, arrivals: seq<Arrival>, seen: set<Cipher>) {
    forall i :: 0 <= i < |arrivals| && arrivals[i].Data? ==>
                  arrivals[i].c in seen || arrivals[i].c.Foreign? || arrivals[i].c.key != SendKey(client)
  }

  /** Whatever arrives, the lines handled continue the row of lines the client sealed, in order and without gaps. */
  lemma {:induction false} LinesAreAuthentic(v: Channel, s: Relay.State, fd: int, client: Endpoint, sent: seq<string>,
                                             got: seq<string>, seen: set<Cipher>, arrivals: seq<Arrival>,
                                             rnds: seq<Option<nat>>)
    requires fd in s.conns && |arrivals| == |rnds| && Possible(client, arrivals, seen)
    requires Lockstep.OneWay(client, v.sess, sent, got, seen)
    ensures var d := Drained(v, s, fd, arrivals, rnds);
            Lockstep.OneWay(client, d.view.sess, sent, got + d.lines, seen) && got + d.lines <= sent
    decreases |arrivals|
  {
    hide Lockstep.OneWay, React, OpenNext, Drained, Possible, Relay.Line;
    Lockstep.WayEnds(client, v.sess, sent, got, seen);
    assert got + [] == got;
    if arrivals == [] {
      NothingHandled(v, s, fd, client, rnds);
    } else {
      PossibleParts(client, arrivals, seen);
      FirstDrops(v, s, fd, arrivals, rnds);
      UpReaction(v, arrivals[0], rnds[0]);
      if arrivals[0].Data? {
        Lockstep.AcceptedIffNext(client, v.sess, sent, got, seen, arrivals[0].c);
        var (w, r) := React(v, arrivals[0], rnds[0]);
        if r.Handle? {
          var after := Relay.Line(s, fd, r.line);
          FirstHandled(v, s, fd, arrivals, rnds, w, r.line, after);
          Lockstep.WayEnds(client, w.sess, sent, got + [r.line], seen);
          LinesAreAuthentic(w, after, fd, client, sent, got + [r.line], seen, arrivals[1..], rnds[1..]);
          assert got + ([r.line] + Drained(w, after, fd, arrivals[1..], rnds[1..]).lines)
              == got + [r.line] + Drained(w, after, fd, arrivals[1..], rnds[1..]).lines;
        }
      }
    }
  }

  lemma FirstDrops(v: Channel, s: Relay.State, fd: int, arrivals: seq<Arrival>, rnds: seq<Option<nat>>)
    requires fd in s.conns && |arrivals| == |rnds| && arrivals != []
    ensures var (w, r) := React(v, arrivals[0], rnds[0]);
            r.Drop? ==> Drained(v, s, fd, arrivals, rnds) == Outcome(w, s, false, [], [], [])
  {
    hide React, Relay.Line;
  }

  lemma FirstHandled(v: Channel, s: Relay.State, fd: int, arrivals: seq<Arrival>, rnds: seq<Option<nat>>,
                     w: Channel, text: string, after: Relay.State)
    requires fd in s.conns && |arrivals| == |rnds| && arrivals != []
    requires React(v, arrivals[0], rnds[0]) == (w, Handle(text)) && after == Relay.Line(s, fd, text)
    ensures after.conns[fd].wantClose ==> Drained(v, s, fd, arrivals, rnds) == Outcome(w, after, true, [], [], [text])
    ensures !after.conns[fd].wantClose ==>
              var d := Drained(w, after, fd, arrivals[1..], rnds[1..]);
              Drained(v, s, fd, arrivals, rnds) == Outcome(d.view, d.relay, d.ok, d.replies, d.alerts, [text] + d.lines)
  {
    hide React, Relay.Line;
  }

  /** Once the session is up, a record is either the next line or fatal. */
  lemma UpReaction(v: Channel, a: Arrival, rnd: Option<nat>)
    requires v.sess.up
    ensures var (w, r) := React(v, a, rnd);
            && (r.Drop? || (r.Handle? && a.Data? && OpenNext(v.sess, a.c) == (w.sess, Some(r.line))))
            && (r.Drop? ==> w == v)
  {
    hide OpenNext;
  }

  lemma PossibleParts(client: Endpoint, arrivals: seq<Arrival>, seen: set<Cipher>)
    requires Possible(client, arrivals, seen) && arrivals != []
    ensures Possible(client, arrivals[1..], seen)
    ensures arrivals[0].Data? ==>
              arrivals[0].c in seen || arrivals[0].c.Foreign? || arrivals[0].c.key != SendKey(client)
  {
  }

  /** Records taken in two batches give what they give in one, unless the first batch ended the connection. */
  lemma {:induction false} BatchesJoin(v: Channel, s: Relay.State, fd: int, a: seq<Arrival>, b: seq<Arrival>,
                                       x: seq<Option<nat>>, y: seq<Option<nat>>)
    requires fd in s.conns && |a| == |x| && |b| == |y| && !s.conns[fd].wantClose
    ensures var d := Drained(v, s, fd, a, x);
            && fd in d.relay.conns
            && Drained(v, s, fd, a + b, x + y) ==
               if d.ok && !d.relay.conns[fd].wantClose
               then After(d.replies, d.lines, Drained(d.view, d.relay, fd, b, y)) else d
    decreases |a|
  {
    if a == [] {
      assert a + b == b && x + y == y;
      Nothing(Drained(v, s, fd, b, y));
    } else {
      hide React, Relay.Line;
      assert (a + b)[1..] == a[1..] + b && (x + y)[1..] == x[1..] + y;
      var (w, r) := React(v, a[0], x[0]);
      match r
      case Replies(rs) =>
        BatchesJoin(w, s, fd, a[1..], b, x[1..], y);
        var d := Drained(w, s, fd, a[1..], x[1..]);
        assert rs + (d.replies + Drained(d.view, d.relay, fd, b, y).replies)
            == rs + d.replies + Drained(d.view, d.relay, fd, b, y).replies;
      case Established => BatchesJoin(w, Relay.Secured(s, fd), fd, a[1..], b, x[1..], y);
      case Handle(text) =>
        var after := Relay.Line(s, fd, text);
        if !after.conns[fd].wantClose {
          BatchesJoin(w, after, fd, a[1..], b, x[1..], y);
          var d := Drained(w, after, fd, a[1..], x[1..]);
          assert [text] + (d.lines + Drained(d.view, d.relay, fd, b, y).lines)
              == [text] + d.lines + Drained(d.view, d.relay, fd, b, y).lines;
        }
      case _ =>
    }
  }

  /** The client's records k, k + 1, ... for the texts it sealed. */
  function Sealings(client: Endpoint, k: nat, texts: seq<string>): (r: seq<Arrival>)
    ensures |r| == |texts|
    decreases |texts|
  {
    if texts == [] then [] else [Data(RecordNo(client, k, texts[0]))] + Sealings(client, k + 1, texts[1..])
  }

  /** Each line fits, and handling it does not close the connection. */
  ghost predicate Carried(s: Relay.State, fd: int, texts: seq<string>)
    requires fd in s.conns
    decreases |texts|
  {
    texts == [] || (&& |texts[0]| <= MAX_PLAINTEXT
                    && var r := Relay.Line(s, fd, texts[0]);
                       !r.conns[fd].wantClose && Carried(r, fd, texts[1..]))
  }

  /** Records that arrive in order are all handled, as long as no line asks to close. */
  lemma {:induction false} InOrderAllHandled(v: Channel, s: Relay.State, fd: int, client: Endpoint, texts: seq<string>,
                                             rnds: seq<Option<nat>>)
    requires fd in s.conns && Carried(s, fd, texts)
    requires v.sess.up && v.sess.role == Server && client.role == Client && client.keys == v.sess.keys
    requires v.sess.rx + |texts| < TWO_64 && |rnds| == |texts|
    ensures Drained(v, s, fd, Sealings(client, v.sess.rx, texts), rnds)
         == Outcome(v.(sess := v.sess.(rx := v.sess.rx + |texts|)), Handled(s, fd, texts), true, [], [], texts)
    decreases |texts|
  {
    hide *;
    if texts == [] {
      NothingHandled(v, s, fd, client, rnds);
    } else {
      var arrivals := Sealings(client, v.sess.rx, texts);
      var after := Relay.Line(s, fd, texts[0]);
      var w := v.(sess := v.sess.(rx := v.sess.rx + 1));
      SealingsFirst(client, v.sess.rx, texts);
      CarriedFirst(s, fd, texts);
      NextIsHandled(v, client, texts[0], rnds[0]);
      InOrderAllHandled(w, after, fd, client, texts[1..], rnds[1..]);
      FirstHandled(v, s, fd, arrivals, rnds, w, texts[0], after);
      assert [texts[0]] + texts[1..] == texts;
    }
  }

  lemma NothingHandled(v: Channel, s: Relay.State, fd: int, client: Endpoint, rnds: seq<Option<nat>>)
    requires fd in s.conns && rnds == []
    ensures Sealings(client, v.sess.rx, []) == [] && Handled(s, fd, []) == s
    ensures Drained(v, s, fd, [], rnds) == Outcome(v, s, true, [], [], [])
  {
  }

  lemma SealingsFirst(client: Endpoint, k: nat, texts: seq<string>)
    requires texts != []
    ensures Sealings(client, k, texts)[0] == Data(RecordNo(client, k, texts[0]))
    ensures Sealings(client, k, texts)[1..] == Sealings(client, k + 1, texts[1..])
  {
    hide RecordNo;
  }

  lemma CarriedFirst(s: Relay.State, fd: int, texts: seq<string>)
    requires fd in s.conns && texts != [] && Carried(s, fd, texts)
    ensures var after := Relay.Line(s, fd, texts[0]);
            && |texts[0]| <= MAX_PLAINTEXT && !after.conns[fd].wantClose
            && Carried(after, fd, texts[1..]) && Handled(s, fd, texts) == Handled(after, fd, texts[1..])
  {
    hide Relay.Line;
  }

  lemma SecuredKeeps(s: Relay.State, fd: int)
    ensures Relay.Secured(s, fd).conns.Keys == s.conns.Keys
  {
  }

  lemma NextIsHandled(v: Channel, client: Endpoint, text: string, rnd: Option<nat>)
    requires v.sess.up && v.sess.role == Server && client.role == Client && client.keys == v.sess.keys
    requires v.sess.rx + 1 < TWO_64 && |text| <= MAX_PLAINTEXT
    ensures React(v, Data(RecordNo(client, v.sess.rx, text)), rnd)
         == (v.(sess := v.sess.(rx := v.sess.rx + 1)), Handle(text))
  {
    hide NonceOf;
  }

  /** The connection once the hello has been answered, and once the key exchange is complete. */
  lemma HandshakeReactions(v: Channel, hello: Bytes, answer: Bytes, y: nat, rnd: Option<nat>)
    requires !v.sess.up
    requires Handshake.FeedServer(v.hs, hello, Some(y)).1.NeedMore?
    requires Handshake.FeedServer(Handshake.FeedServer(v.hs, hello, Some(y)).0, answer, rnd).1.Done?
    ensures var (s, status) := Handshake.FeedServer(v.hs, hello, Some(y));
            var (s', _) := Handshake.FeedServer(s, answer, rnd);
            && React(v, Hello(hello), Some(y)) == (v.(hs := s), Replies(status.replies))
            && React(v.(hs := s), Hello(answer), rnd)
            == (v.(hs := s', sess := Endpoint(s'.keys, Server, true, 0, 0)), Established)
  {
    hide Handshake.FeedServer;
  }

  lemma DrainedTwo(v: Channel, s: Relay.State, fd: int, a: Arrival, b: Arrival, rest: seq<Arrival>, rnds: seq<Option<nat>>)
    requires fd in s.conns && |rnds| == 2 + |rest|
    requires React(v, a, rnds[0]).1.Replies?
    requires React(React(v, a, rnds[0]).0, b, rnds[1]).1 == Established
    ensures var (w, r) := React(v, a, rnds[0]);
            && Drained(v, s, fd, [a], rnds[..1]).replies == r.replies
            && Drained(v, s, fd, [a, b] + rest, rnds)
            == After(r.replies, [], Drained(React(w, b, rnds[1]).0, Relay.Secured(s, fd), fd, rest, rnds[2..]))
  {
    hide React, Relay.Line;
    var (w, r) := React(v, a, rnds[0]);
    var (u, _) := React(w, b, rnds[1]);
    var all := [a, b] + rest;
    assert all[1..] == [b] + rest && all[1..][1..] == rest && rnds[1..][1..] == rnds[2..];
    var d := Drained(u, Relay.Secured(s, fd), fd, rest, rnds[2..]);
    assert [] + d.lines == d.lines;
    assert [a][1..] == [] && rnds[..1][1..] == [] && r.replies + [] == r.replies;
  }

  /**
   * A whole conversation as the server sees it: hello, key exchange and any
   * lines a client seals make the server answer with its three records, and the
   * relay handle exactly those lines, as long as none of them closes.
   */
  lemma Conversation(s: Relay.State, fd: int, random: Bytes, x: nat, y: nat, cert: Bytes, signer: Handshake.Signer,
                     sig: Bytes, trust: Handshake.Trust, texts: seq<string>, rnds: seq<Option<nat>>)
    requires |random| == CLIENT_RANDOM_LEN && cert != []
    requires signer.sign(ProofTranscript(VERSION, random, cert, Dh.PublicBytes(y))) == Some(sig)
    requires |cert| + 4 <= MAX_RECORD && |sig| + 4 <= MAX_RECORD
    requires trust.validate(cert) && trust.verify(cert, ProofTranscript(VERSION, random, cert, Dh.PublicBytes(y)), sig)
    requires Dh.ValidPublic(Dh.PublicBytes(x)) && Dh.ValidPublic(Dh.PublicBytes(y))
    requires |texts| < TWO_64 && |rnds| == 2 + |texts| && rnds[0] == Some(y)
    requires fd in s.conns && Carried(Relay.Secured(s, fd), fd, texts)
    ensures var v := Unsecured(cert, signer);
            var hello := Hello(Handshake.ClientHello(VERSION, random));
            var flight := Drained(v, s, fd, [hello], rnds[..1]).replies;
            var client := Handshake.FinishClient(VERSION, random, Handshake.AsRecords(flight), trust, Some(x));
            && client.Established?
            && var me := Endpoint(client.keys, Client, true, |texts|, 0);
               var d := Drained(v, s, fd, [hello, Hello(client.answer)] + Sealings(me, 0, texts), rnds);
               && d.ok && d.replies == flight && d.lines == texts && d.view.sess.keys == client.keys
               && d.relay == Handled(Relay.Secured(s, fd), fd, texts)
  {
    hide *;
    UnsecuredIsFresh(cert, signer);
    SecuredKeeps(s, fd);
    HonestRun(random, x, y, cert, signer, sig, trust);
    var v := Unsecured(cert, signer);
    var hello := Handshake.ClientHello(VERSION, random);
    var (hs, status) := Handshake.FeedServer(v.hs, hello, Some(y));
    var client := Handshake.FinishClient(VERSION, random, Handshake.AsRecords(status.replies), trust, Some(x));
    AfterHandshake(v, s, fd, hello, client.answer, client.keys, y, texts, rnds);
  }

  /** The part of the honest handshake that matters here. */
  lemma HonestRun(random: Bytes, x: nat, y: nat, cert: Bytes, signer: Handshake.Signer, sig: Bytes, trust: Handshake.Trust)
    requires |random| == CLIENT_RANDOM_LEN && cert != []
    requires signer.sign(ProofTranscript(VERSION, random, cert, Dh.PublicBytes(y))) == Some(sig)
    requires |cert| + 4 <= MAX_RECORD && |sig| + 4 <= MAX_RECORD
    requires trust.validate(cert) && trust.verify(cert, ProofTranscript(VERSION, random, cert, Dh.PublicBytes(y)), sig)
    requires Dh.ValidPublic(Dh.PublicBytes(x)) && Dh.ValidPublic(Dh.PublicBytes(y))
    ensures var (s, status) := Handshake.FeedServer(Handshake.Fresh(cert, Some(signer)),
                                                    Handshake.ClientHello(VERSION, random), Some(y));
            && status.NeedMore? && s.step == Handshake.AwaitClientKex
            && var client := Handshake.FinishClient(VERSION, random, Handshake.AsRecords(status.replies), trust, Some(x));
               && client.Established?
               && var (s', status') := Handshake.FeedServer(s, client.answer, None);
                  status' == Handshake.Done && s'.keys == client.keys
  {
    FieldsFit(cert, sig);
    hide *;
    Handshake.Completes(random, x, y, cert, signer, sig, trust);
  }

  lemma FieldsFit(cert: Bytes, sig: Bytes)
    requires |cert| + 4 <= MAX_RECORD && |sig| + 4 <= MAX_RECORD
    ensures Framing.Fits(Framing.Record(REC_HANDSHAKE, Handshake.Field(HS_SERVER_CERT, cert)))
    ensures Framing.Fits(Framing.Record(REC_HANDSHAKE, Handshake.Field(HS_SERVER_PROOF, sig)))
  {
  }

  lemma UnsecuredIsFresh(cert: Bytes, signer: Handshake.Signer)
    ensures var v := Unsecured(cert, signer);
            !v.sess.up && v.hs == Handshake.Fresh(cert, Some(signer))
  {
  }

  /** Once the handshake records are the right ones, the texts that follow are handled. */
  lemma {:induction false} AfterHandshake(v: Channel, s: Relay.State, fd: int, hello: Bytes, answer: Bytes, keys: Keys,
                                          y: nat, texts: seq<string>, rnds: seq<Option<nat>>)
    requires !v.sess.up
    requires |texts| < TWO_64 && |rnds| == 2 + |texts| && rnds[0] == Some(y)
    requires fd in s.conns && fd in Relay.Secured(s, fd).conns && Carried(Relay.Secured(s, fd), fd, texts)
    requires var (hs, status) := Handshake.FeedServer(v.hs, hello, Some(y));
             && status.NeedMore?
             && var (hs', status') := Handshake.FeedServer(hs, answer, None);
                status' == Handshake.Done && hs'.keys == keys && hs.step != Handshake.AwaitClientHello
    ensures var me := Endpoint(keys, Client, true, |texts|, 0);
            var d := Drained(v, s, fd, [Hello(hello), Hello(answer)] + Sealings(me, 0, texts), rnds);
            && d.ok && d.lines == texts && d.view.sess.keys == keys
            && d.relay == Handled(Relay.Secured(s, fd), fd, texts)
            && d.replies == Drained(v, s, fd, [Hello(hello)], rnds[..1]).replies
            && d.replies == Handshake.FeedServer(v.hs, hello, Some(y)).1.replies
  {
    hide Handshake.FeedServer, Drained, React, Sealings, Carried, Handled, Relay.Secured;
    var (hs, status) := Handshake.FeedServer(v.hs, hello, Some(y));
    NoMatterWhichRandom(hs, answer, rnds[1]);
    HandshakeReactions(v, hello, answer, y, rnds[1]);
    var (w, _) := React(v.(hs := hs), Hello(answer), rnds[1]);
    var me := Endpoint(keys, Client, true, |texts|, 0);
    DrainedTwo(v, s, fd, Hello(hello), Hello(answer), Sealings(me, 0, texts), rnds);
    InOrderAllHandled(w, Relay.Secured(s, fd), fd, me, texts, rnds[2..]);
    assert [] + texts == texts && status.replies + [] == status.replies;
  }

  /** Past the hello no key is generated. */
  lemma NoMatterWhichRandom(s: Handshake.ServerState, body: Bytes, rnd: Option<nat>)
    requires s.step != Handshake.AwaitClientHello
    ensures Handshake.FeedServer(s, body, rnd) == Handshake.FeedServer(s, body, None)
  {
    hide Handshake.OnClientKex;
  }
}
