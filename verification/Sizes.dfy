/**
 * What is sealed is sent: lines stay below the limits that would drop them
 * after their sequence number has been spent.
 */
module Sizes {
  import opened Wrappers
  import opened ByteStrings
  import opened Protocol
  import opened Crypto
  import opened Grammar
  import opened Relay
  import opened Routing
  import Base64
  import Dh
  import E2e
  import Framing
  import Lockstep
  import Names
  import Session

  // -------------------------------------------------------------- the client side

  /** The longest text that always fits once sealed end to end. */
  const LONGEST_TEXT: nat := 6088

  /**
   * The line that carries a sealed text of at most 6088 octets always passes the
   * client's limit; for the longest names exactly those do.
   */
  lemma ChatFits(codec: Codec, p: Option<E2e.Peer>, text: string, to: string)
    requires Username(to) && E2e.SealPeer(p, text).Ok? && Carries(codec, E2e.SealPeer(p, text).value.1.ct)
    ensures var m := E2e.SealPeer(p, text).value.1;
            var fits := |MsgLine(to, E2e.TAG_MSG + E2e.ChatText(codec, m))| <= MAX_PLAINTEXT;
            && (|text| <= LONGEST_TEXT ==> fits)
            && (|to| == MAX_USERNAME ==> (fits <==> |text| <= LONGEST_TEXT))
  {
    var m := E2e.SealPeer(p, text).value.1;
    assert m.ct.Length() == |text| + 16;
    hide *;
    ChatLineLength(codec, m, to);
    NameLength(to);
    ChatBound(|text|, |to|);
  }

  lemma NameLength(name: string)
    requires Username(name)
    ensures |name| <= MAX_USERNAME
  {
  }

  lemma ChatBound(n: nat, k: nat)
    requires k <= 32
    ensures n <= LONGEST_TEXT ==> 16 + k + (4 + (n + 16) + 2) / 3 * 4 <= MAX_PLAINTEXT
    ensures k == 32 && n > LONGEST_TEXT ==> 16 + k + (4 + (n + 16) + 2) / 3 * 4 > MAX_PLAINTEXT
  {
  }

  /** Tag and epoch, then four characters for each started group of three octets. */
  lemma ChatLineLength(codec: Codec, m: E2e.ChatPayload, to: string)
    requires m.Chat? && Carries(codec, m.ct)
    ensures |MsgLine(to, E2e.TAG_MSG + E2e.ChatText(codec, m))| == 16 + |to| + (4 + m.ct.Length() + 2) / 3 * 4
  {
    Base64.EncodedLength(BigEndian(m.epoch, 4) + codec.write(m.ct));
    hide Base64.Encoded;
    assert |E2e.TAG_MSG| == 11;
  }

  /** Key-exchange lines always fit. */
  lemma KexFits(epoch: nat, pub: Bytes, to: string)
    requires epoch < TWO_32 && |pub| == Dh.MODULUS_BYTES && Username(to)
    ensures |MsgLine(to, E2e.TAG_INIT + E2e.KexText(epoch, pub))| <= MAX_PLAINTEXT
    ensures |MsgLine(to, E2e.TAG_ACK + E2e.KexText(epoch, pub))| <= MAX_PLAINTEXT
  {
    KexLength(epoch, pub);
    hide E2e.KexText;
    assert |E2e.TAG_INIT| == 12 && |E2e.TAG_ACK| == 11;
  }

  lemma KexLength(epoch: nat, pub: Bytes)
    requires |pub| == Dh.MODULUS_BYTES
    ensures |E2e.KexText(epoch, pub)| == 352
  {
    hide Base64.Encoded, E2e.KexBytes;
    E2e.KexBytesParts(epoch, pub);
    Base64.EncodedLength(E2e.KexBytes(epoch, pub));
  }

  // -------------------------------------------------------------- the server side

  /** A line is queued exactly when the record its ciphertext makes is one that the output queue accepts. */
  lemma QueuedIfFits(line: string, kind: Byte, body: Bytes)
    requires |body| == |line| + TAG_LEN
    ensures LineFits(line) <==> Framing.Fits(Framing.Record(kind, body))
    ensures LineFits(line) <==> |line| <= 16367
  {
  }

  /** Every sequence number spent is on a queued line. */
  ghost predicate Aligned(s: State) {
    forall fd :: fd in s.conns ==> s.conns[fd].sealed == |s.conns[fd].lines|
  }

  lemma SendAligned(s: State, fd: int, line: string)
    requires Aligned(s) && fd in s.conns
    ensures Aligned(SendTo(s, fd, line)) <==> !s.conns[fd].up || LineFits(line)
    ensures Aligned(Refuse(s, fd, line)) <==> !s.conns[fd].up || LineFits(line)
  {
    hide LineFits;
    var c := SendTo(s, fd, line).conns[fd];
    var d := Refuse(s, fd, line).conns[fd];
    assert s.conns[fd].up && !LineFits(line) ==> c.sealed != |c.lines| && d.sealed != |d.lines|;
  }

  lemma BroadcastAligned(s: State, line: string, except: int)
    requires Aligned(s) && LineFits(line)
    ensures Aligned(Broadcast(s, line, except))
  {
    hide LineFits;
  }

  lemma DroppedAligned(s: State, fd: int)
    requires Aligned(s) && Indexed(s)
    ensures Aligned(Dropped(s, fd))
  {
    hide Broadcast;
    if fd in s.conns && s.conns[fd].registered {
      var c := s.conns[fd];
      BroadcastAligned(State(s.conns, s.byName - {c.user}), "INFO " + c.user + " left", fd);
    }
  }

  lemma LoginAligned(s: State, fd: int, args: string)
    requires Aligned(s) && Indexed(s) && fd in s.conns
    ensures Aligned(Login(s, fd, args))
  {
    hide Broadcast, SendTo, Refuse;
    SendAligned(s, fd, "ERR already logged in");
    SendAligned(s, fd, INVALID_USERNAME);
    SendAligned(s, fd, "ERR username taken");
    if Username(args) {
      var named := State(s.conns[fd := s.conns[fd].(registered := true, user := args)], s.byName[args := fd]);
      SendAligned(named, fd, "OK " + args);
      BroadcastAligned(SendTo(named, fd, "OK " + args), "INFO " + args + " joined", fd);
    }
  }

  lemma MessageAligned(s: State, fd: int, args: string)
    requires Aligned(s) && Indexed(s) && fd in s.conns && s.conns[fd].registered && |args| <= MAX_PLAINTEXT
    ensures Aligned(Message(s, fd, args))
  {
    hide SendTo, Split;
    var parts := Split(args, ' ', 2);
    SplitJoins(args, ' ', 2);
    SendAligned(s, fd, "ERR usage: MSG <to> <text>");
    if |parts| == 2 {
      assert Join(parts, ' ') == args && parts[1..] == [parts[1]];
      SendAligned(s, fd, "ERR no such user: " + parts[0]);
      if parts[0] in s.byName && s.byName[parts[0]] in s.conns {
        SendAligned(s, s.byName[parts[0]], FromLine(s.conns[fd].user, parts[1]));
      }
    }
  }

  /** A logged-in user's WHO is about to be answered. */
  ghost predicate AsksWho(s: State, e: Event) {
    e.Recv? && e.fd in s.conns && s.conns[e.fd].registered && |e.line| <= MAX_PLAINTEXT && Verb(e.line) == "WHO"
  }

  lemma LineAligned(s: State, fd: int, line: string)
    requires Aligned(s) && Indexed(s) && fd in s.conns && s.conns[fd].up && |line| <= MAX_PLAINTEXT
    ensures Aligned(Line(s, fd, line)) <==>
              !(s.conns[fd].registered && Verb(line) == "WHO" && !LineFits(UsersLine(s.byName.Keys)))
  {
    LineParts(line);
    VerbIsShort(line);
    SendAligned(s, fd, "ERR must LOGIN first");
    SendAligned(s, fd, UsersLine(s.byName.Keys));
    SendAligned(s, fd, "ERR unknown command: " + Verb(line));
    LoginAligned(s, fd, Arguments(line));
    if s.conns[fd].registered {
      MessageAligned(s, fd, Arguments(line));
    }
    hide Login, Message, SendTo, Refuse, Split, UsersLine, Indexed;
  }

  /** A step spends a sequence number without queuing its line exactly when it answers a WHO that is too long. */
  lemma StepAligned(s: State, e: Event)
    requires Aligned(s) && Indexed(s)
    ensures Aligned(Step(s, e)) <==> !(AsksWho(s, e) && !LineFits(UsersLine(s.byName.Keys)))
  {
    hide Line, Dropped, UsersLine, LineFits;
    DroppedAligned(s, e.fd);
    if e.Recv? && e.fd in s.conns && s.conns[e.fd].up && |e.line| <= MAX_PLAINTEXT {
      LineAligned(s, e.fd, e.line);
    }
  }

  /**
   * The dropped answer is a record the client never gets: its session, which was
   * in lockstep, has opened at most what was sealed before, and refuses every
   * record sealed for it later, whatever anybody does.
   */
  lemma WhoStopsClient(s: State, e: Event, l: Lockstep.Link, moves: seq<Lockstep.Move>, j: nat)
    requires Aligned(s) && Indexed(s) && AsksWho(s, e) && !LineFits(UsersLine(s.byName.Keys))
    requires Lockstep.Lockstepped(l) && |l.serverSent| == s.conns[e.fd].sealed && l.server.tx + 1 < TWO_64
    requires Lockstep.AllPossible(Lockstep.Lost(l, UsersLine(s.byName.Keys)), moves)
    ensures var after := Step(s, e);
            var l1 := Lockstep.Lost(l, UsersLine(s.byName.Keys));
            var end := Lockstep.Played(l1, moves);
            && e.fd in after.conns
            && after.conns[e.fd].sealed == |l1.serverSent| && after.conns[e.fd].lines == s.conns[e.fd].lines
            && end.clientGot <= l.serverSent
            && (|l.serverSent| < j < |end.serverSent| ==>
                  Session.OpenNext(end.client, Session.RecordNo(end.server, j, end.serverSent[j])).1 == None)
  {
    WhoDropped(s, e);
    hide *;
    Lockstep.LossStopsClient(l, UsersLine(s.byName.Keys), moves, j);
    LostCounts(l, UsersLine(s.byName.Keys));
  }

  lemma LostCounts(l: Lockstep.Link, text: string)
    ensures |Lockstep.Lost(l, text).serverSent| == |l.serverSent| + 1
  {
  }

  lemma WhoDropped(s: State, e: Event)
    requires Indexed(s) && AsksWho(s, e) && !LineFits(UsersLine(s.byName.Keys))
    ensures var after := Step(s, e);
            && e.fd in after.conns
            && after.conns[e.fd].sealed == s.conns[e.fd].sealed + 1 && after.conns[e.fd].lines == s.conns[e.fd].lines
  {
    hide Login, Message, UsersLine, LineFits;
  }

  // ------------------------------------------------------------ the list of users

  /** The most users a WHO can always list. */
  const MOST_LISTED: nat := 495

  lemma {:induction false} ListedLength(names: seq<string>)
    requires forall i :: 0 <= i < |names| ==> Username(names[i])
    ensures |Listed(names)| <= 33 * |names|
    ensures (forall i :: 0 <= i < |names| ==> |names[i]| == MAX_USERNAME) && names != [] ==>
              |Listed(names)| == 33 * |names| - 1
    ensures names != [] ==> 1 <= |Listed(names)| <= 33 * |names| - 1
  {
    if names == [] {
    } else {
      ListedLength(names[..|names| - 1]);
    }
  }

  lemma {:induction false} AscendingCount(names: seq<string>)
    requires Names.Ascending(names)
    ensures |Names.Elements(names)| == |names|
  {
    if names == [] {
    } else {
      var k := |names| - 1;
      AscendingCount(names[..k]);
      Names.AscendingDistinct(names, k);
      assert Names.Elements(names) == Names.Elements(names[..k]) + {names[k]};
    }
  }

  /** The answer to WHO fits for at most 495 users; with the longest names that bound is exact. */
  lemma WhoFits(names: set<string>)
    requires forall n :: n in names ==> Username(n)
    ensures |names| <= MOST_LISTED ==> LineFits(UsersLine(names))
    ensures (forall n :: n in names ==> |n| == MAX_USERNAME) ==> (LineFits(UsersLine(names)) <==> |names| <= MOST_LISTED)
  {
    var list := Names.Ordered(names);
    AscendingCount(list);
    assert forall i :: 0 <= i < |list| ==> list[i] in Names.Elements(list);
    hide Username, Names.Ordered, Names.Ascending, Listed;
    ListedLength(list);
    assert |UsersLine(names)| == 6 + |Listed(list)|;
  }

  // -------------------------------------------------------------------- all runs

  ghost predicate NeverCrowded(s: State, es: seq<Event>)
    decreases |es|
  {
    |Online(s)| <= MOST_LISTED && (es == [] || NeverCrowded(Step(s, es[0]), es[1..]))
  }

  lemma {:induction false} RunAligned(s: State, es: seq<Event>)
    requires Aligned(s) && Indexed(s) && NeverCrowded(s, es)
    ensures Aligned(Run(s, es))
    decreases |es|
  {
    if es == [] {
    } else {
      UsersValid(s);
      OnlineIsIndexed(s);
      WhoFits(s.byName.Keys);
      hide Aligned, Indexed, Step, UsersLine, LineFits;
      StepAligned(s, es[0]);
      StepIndexed(s, es[0]);
      RunAligned(Step(s, es[0]), es[1..]);
    }
  }

  lemma UsersValid(s: State)
    requires Indexed(s)
    ensures forall n :: n in s.byName.Keys ==> Username(n)
  {
    hide Username;
    forall n | n in s.byName ensures Username(n) {
      assert Holds(s, s.byName[n], n);
    }
  }

  /**
   * As long as at most 495 users are logged in at a time, no record is dropped
   * after its sequence number has been spent, on any connection, in any run.
   */
  lemma NothingSpentInVain(es: seq<Event>)
    requires NeverCrowded(Empty(), es)
    ensures Aligned(Run(Empty(), es))
  {
    RunAligned(Empty(), es);
  }

  // ----------------------------------------------------------- one user too many

  function Digit(k: nat): char
    requires k < 10
  {
    ('0' as int + k) as char
  }

  /** A name of the greatest length. */
  function Numbered(k: nat): string
    requires k < 1000
  {
    [Digit(k / 100), Digit(k / 10 % 10), Digit(k % 10)] + seq(29, _ => 'a')
  }

  lemma NumberedDistinct(j: nat, k: nat)
    requires j < 1000 && k < 1000
    ensures Numbered(j) == Numbered(k) ==> j == k
  {
    NumberedDigits(j);
    NumberedDigits(k);
  }

  lemma NumberedDigits(k: nat)
    requires k < 1000
    ensures var n := Numbered(k);
            |n| == 32 && k == 100 * (n[0] as int - '0' as int) + 10 * (n[1] as int - '0' as int) + (n[2] as int - '0' as int)
  {
  }

  lemma NumberedIsName(k: nat)
    requires k < 1000
    ensures Username(Numbered(k)) && |Numbered(k)| == MAX_USERNAME
  {
  }

  /** The first k of those names. */
  function FirstNames(k: nat): set<string>
    requires k <= 1000
  {
    if k == 0 then {} else FirstNames(k - 1) + {Numbered(k - 1)}
  }

  lemma {:induction false} FirstNamesFacts(k: nat, j: nat)
    requires k <= j < 1000
    ensures |FirstNames(k)| == k && Numbered(j) !in FirstNames(k)
    ensures forall n :: n in FirstNames(k) ==> Username(n) && |n| == MAX_USERNAME
  {
    hide Numbered, Username;
    if k == 0 {
    } else {
      FirstNamesFacts(k - 1, k - 1);
      FirstNamesFacts(k - 1, j);
      NumberedDistinct(k - 1, j);
      NumberedIsName(k - 1);
    }
  }

  /** A client that connects, completes the handshake and logs in. */
  function Joining(fd: int, name: string): seq<Event> {
    [Accept(fd), Secure(fd), Recv(fd, "LOGIN" + " " + name)]
  }

  function Crowd(k: nat): seq<Event>
    requires k <= 1000
  {
    if k == 0 then [] else Crowd(k - 1) + Joining(k - 1, Numbered(k - 1))
  }

  lemma {:induction false} RunAppend(s: State, es: seq<Event>, fs: seq<Event>)
    ensures Run(s, es + fs) == Run(Run(s, es), fs)
    decreases |es|
  {
    hide Step;
    if es == [] {
      assert es + fs == fs;
    } else {
      assert (es + fs)[1..] == es[1..] + fs;
      RunAppend(Step(s, es[0]), es[1..], fs);
    }
  }

  lemma JoiningAdds(s: State, fd: int, name: string)
    requires Indexed(s) && Aligned(s) && fd !in s.conns && name !in s.byName && Username(name)
    ensures var t := Run(s, Joining(fd, name));
            && t.byName == s.byName[name := fd] && t.conns.Keys == s.conns.Keys + {fd} && Aligned(t)
  {
    var j := Joining(fd, name);
    var s1 := Step(s, j[0]);
    var s2 := Step(s1, j[1]);
    var s3 := Step(s2, j[2]);
    RunThree(s, j);
    LoginParts(name);
    StepIndexed(s, j[0]);
    StepIndexed(s1, j[1]);
    StepAligned(s, j[0]);
    StepAligned(s1, j[1]);
    StepAligned(s2, j[2]);
    hide Username, Split, Broadcast;
    assert s3 == Login(s2, fd, name);
    var named := State(s2.conns[fd := s2.conns[fd].(registered := true, user := name)], s2.byName[name := fd]);
    BroadcastSame(SendTo(named, fd, "OK " + name), "INFO " + name + " joined", fd);
  }

  lemma RunThree(s: State, es: seq<Event>)
    requires |es| == 3
    ensures Run(s, es) == Step(Step(Step(s, es[0]), es[1]), es[2])
  {
    hide Step;
    var s1 := Step(s, es[0]);
    var s2 := Step(s1, es[1]);
    assert es[1..][0] == es[1] && es[1..][1..] == es[2..] && es[2..][0] == es[2] && es[2..][1..] == [];
    assert Run(s1, es[1..]) == Run(s2, es[2..]);
    assert Run(s2, es[2..]) == Run(Step(s2, es[2]), []);
  }

  lemma LoginParts(name: string)
    requires Username(name)
    ensures Verb("LOGIN" + " " + name) == "LOGIN" && Arguments("LOGIN" + " " + name) == name
    ensures |"LOGIN" + " " + name| <= MAX_PLAINTEXT
  {
    SplitAt("LOGIN", ' ', name, 2);
    SplitFew(name, ' ');
  }

  /** Connections 0 to k - 1 are there, and the first k names are logged in. */
  ghost predicate Gathered(s: State, k: nat)
    requires k <= 1000
  {
    && Indexed(s) && Aligned(s)
    && (forall fd :: fd in s.conns.Keys ==> fd < k)
    && s.byName.Keys == FirstNames(k)
    && (k > 0 ==> Numbered(0) in s.byName && s.byName[Numbered(0)] == 0)
  }

  lemma OneMoreGathered(s: State, k: nat)
    requires k < 999 && Gathered(s, k)
    ensures Gathered(Run(s, Joining(k, Numbered(k))), k + 1)
  {
    var name := Numbered(k);
    assert FirstNames(k + 1) == FirstNames(k) + {name};
    FirstNamesFacts(k, k);
    NumberedIsName(k);
    GatheredSoFar(s, k);
    hide *;
    assert k !in s.conns.Keys && name !in s.byName.Keys;
    JoiningAdds(s, k, name);
    RunIndexed(s, Joining(k, name));
    GatheredNow(s, Run(s, Joining(k, name)), k, name);
  }

  lemma GatheredSoFar(s: State, k: nat)
    requires k <= 1000 && Gathered(s, k)
    ensures Indexed(s) && Aligned(s) && (forall fd :: fd in s.conns.Keys ==> fd < k) && s.byName.Keys == FirstNames(k)
  {
  }

  lemma GatheredNow(s: State, t: State, k: nat, name: string)
    requires k < 999 && Gathered(s, k) && name == Numbered(k) && name !in s.byName
    requires FirstNames(k + 1) == FirstNames(k) + {name}
    requires Indexed(t) && Aligned(t) && t.byName == s.byName[name := k] && t.conns.Keys == s.conns.Keys + {k as int}
    ensures Gathered(t, k + 1)
  {
    hide Numbered, FirstNames, Indexed, Aligned;
  }

  lemma {:induction false} CrowdOnline(k: nat)
    requires k < 999
    ensures Gathered(Run(Empty(), Crowd(k)), k)
  {
    if k == 0 {
    } else {
      assert Crowd(k) == Crowd(k - 1) + Joining(k - 1, Numbered(k - 1));
      hide *;
      CrowdOnline(k - 1);
      RunAppend(Empty(), Crowd(k - 1), Joining(k - 1, Numbered(k - 1)));
      OneMoreGathered(Run(Empty(), Crowd(k - 1)), k - 1);
    }
  }

  /** With 496 users of the longest names logged in, a WHO spends a sequence number on a line that is dropped. */
  lemma OneTooMany()
    ensures Aligned(Run(Empty(), Crowd(MOST_LISTED + 1)))
    ensures !Aligned(Run(Empty(), Crowd(MOST_LISTED + 1) + [Recv(0, "WHO")]))
  {
    hide Run, Crowd, FirstNames, Username, Indexed, Aligned, UsersLine, LineFits, Numbered;
    var s := Run(Empty(), Crowd(496));
    CrowdOnline(496);
    FirstNamesFacts(496, 496);
    WhoFits(s.byName.Keys);
    RunAppend(Empty(), Crowd(496), [Recv(0, "WHO")]);
    RunOnce(s, Recv(0, "WHO"));
    NamedIsOnline(s, Numbered(0));
    WhoIsAsked(s, 0);
    StepAligned(s, Recv(0, "WHO"));
  }

  lemma RunOnce(s: State, e: Event)
    ensures Run(s, [e]) == Step(s, e)
  {
    hide Step;
    assert [e][1..] == [];
  }

  lemma NamedIsOnline(s: State, name: string)
    requires Indexed(s) && name in s.byName
    ensures Holds(s, s.byName[name], name)
  {
  }

  lemma WhoIsAsked(s: State, fd: int)
    requires fd in s.conns && s.conns[fd].registered
    ensures AsksWho(s, Recv(fd, "WHO"))
  {
    SplitWord("WHO");
  }
}
