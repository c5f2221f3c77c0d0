/**
 * The relay over whole runs: the two indexes never disagree, a message reaches
 * exactly the connection that holds the name, and between two logged-in users
 * the relay is a FIFO channel that changes nothing.
 */
module Routing {
  import opened Wrappers
  import opened Protocol
  import opened Relay
  import opened Grammar
  import Names

  datatype Event = Accept(fd: int) | Secure(fd: int) | Recv(fd: int, line: string) | Drop(fd: int)

  /** A line before the handshake, or one that is too long, costs the connection. */
  ghost function Step(s: State, e: Event): State {
    match e
    case Accept(fd) => Accepted(s, fd)
    case Secure(fd) => Secured(s, fd)
    case Recv(fd, line) =>
      if fd !in s.conns then s
      else if !s.conns[fd].up || |line| > MAX_PLAINTEXT then Dropped(s, fd)
      else Line(s, fd, line)
    case Drop(fd) => Dropped(s, fd)
  }

  ghost function Run(s: State, es: seq<Event>): State
    decreases |es|
  {
    if es == [] then s else Run(Step(s, es[0]), es[1..])
  }

  function Empty(): State {
    State(map[], map[])
  }

  // ------------------------------------------------------------ the two indexes

  predicate Holds(s: State, fd: int, name: string) {
    fd in s.conns && s.conns[fd].registered && s.conns[fd].user == name
  }

  ghost predicate Indexed(s: State) {
    && (forall n :: n in s.byName ==> Holds(s, s.byName[n], n))
    && (forall fd :: fd in s.conns ==>
          var c := s.conns[fd];
          && c.fd == fd
          && (c.registered ==> c.user in s.byName && s.byName[c.user] == fd && c.up && Username(c.user)))
  }

  /** t has the connections and names of s; at most lines were queued or closing was asked for. */
  ghost predicate SameUsers(s: State, t: State) {
    && t.byName == s.byName && t.conns.Keys == s.conns.Keys
    && forall fd :: fd in s.conns ==> SameUser(s.conns[fd], t.conns[fd])
  }

  predicate SameUser(c: Conn, d: Conn) {
    d.fd == c.fd && d.registered == c.registered && d.user == c.user && d.up == c.up
  }

  lemma SameUsersIndexed(s: State, t: State)
    requires Indexed(s) && SameUsers(s, t)
    ensures Indexed(t)
  {
    assert forall fd :: fd in t.conns ==> fd in t.conns.Keys;
  }

  lemma SendSame(s: State, fd: int, line: string)
    requires fd in s.conns
    ensures SameUsers(s, SendTo(s, fd, line)) && SameUsers(s, Refuse(s, fd, line))
  {
  }

  lemma BroadcastSame(s: State, line: string, except: int)
    ensures SameUsers(s, Broadcast(s, line, except))
  {
  }

  /** A login names its connection and leaves every other registration alone. */
  lemma LoginIndexed(s: State, fd: int, args: string)
    requires Indexed(s) && fd in s.conns && s.conns[fd].up
    ensures Indexed(Login(s, fd, args))
  {
    hide Indexed, SameUsers, Username, SendTo, Refuse, Broadcast;
    SendSame(s, fd, "ERR already logged in");
    SendSame(s, fd, INVALID_USERNAME);
    SendSame(s, fd, "ERR username taken");
    var t := Login(s, fd, args);
    if SameUsers(s, t) {
      SameUsersIndexed(s, t);
    } else {
      NamedIndexed(s, fd, args);
      var named := State(s.conns[fd := s.conns[fd].(registered := true, user := args)], s.byName[args := fd]);
      var greeted := SendTo(named, fd, "OK " + args);
      SendSame(named, fd, "OK " + args);
      SameUsersIndexed(named, greeted);
      BroadcastSame(greeted, "INFO " + args + " joined", fd);
      SameUsersIndexed(greeted, t);
    }
  }

  lemma NamedIndexed(s: State, fd: int, name: string)
    requires Indexed(s) && fd in s.conns && s.conns[fd].up && !s.conns[fd].registered
    requires Username(name) && name !in s.byName
    ensures Indexed(State(s.conns[fd := s.conns[fd].(registered := true, user := name)], s.byName[name := fd]))
  {
    hide Username;
  }

  /** No command but a login changes who is known. */
  lemma CommandSame(s: State, fd: int, verb: string, args: string)
    requires fd in s.conns
    ensures SameUsers(s, Command(s, fd, verb, args)) || Command(s, fd, verb, args) == Login(s, fd, args)
  {
    hide SameUsers, SendTo, Refuse, Message, UsersLine, Login;
    SendSame(s, fd, "ERR must LOGIN first");
    MessageSame(s, fd, args);
    SendSame(s, fd, UsersLine(s.byName.Keys));
    CloseSame(s, fd);
    SendSame(s, fd, "ERR unknown command: " + verb);
  }

  lemma CloseSame(s: State, fd: int)
    requires fd in s.conns
    ensures SameUsers(s, s.(conns := s.conns[fd := Closing(s.conns[fd])]))
  {
  }

  lemma MessageSame(s: State, fd: int, args: string)
    requires fd in s.conns
    ensures SameUsers(s, Message(s, fd, args))
  {
    hide SameUsers, SendTo, Split;
    SendSame(s, fd, "ERR usage: MSG <to> <text>");
    var parts := Split(args, ' ', 2);
    if |parts| >= 2 {
      SendSame(s, fd, "ERR no such user: " + parts[0]);
      if parts[0] in s.byName && s.byName[parts[0]] in s.conns {
        SendSame(s, s.byName[parts[0]], FromLine(s.conns[fd].user, parts[1]));
      }
    }
  }

  /** A dropped user's name is free again, and nothing else is lost. */
  lemma DroppedIndexed(s: State, fd: int)
    requires Indexed(s)
    ensures Indexed(Dropped(s, fd))
    ensures fd in s.conns && s.conns[fd].registered ==> s.conns[fd].user !in Dropped(s, fd).byName
  {
    hide Username, Broadcast;
    if fd in s.conns {
      var c := s.conns[fd];
      BroadcastSame(State(s.conns, s.byName - {c.user}), "INFO " + c.user + " left", fd);
    }
  }

  lemma StepIndexed(s: State, e: Event)
    requires Indexed(s)
    ensures Indexed(Step(s, e))
  {
    hide Username, Login, Command, Dropped;
    match e
    case Accept(_) =>
    case Secure(_) =>
    case Drop(fd) => DroppedIndexed(s, fd);
    case Recv(fd, line) =>
      DroppedIndexed(s, fd);
      if fd in s.conns && s.conns[fd].up {
        CommandSame(s, fd, Verb(line), Arguments(line));
        LoginIndexed(s, fd, Arguments(line));
        if SameUsers(s, Line(s, fd, line)) {
          SameUsersIndexed(s, Line(s, fd, line));
        }
      }
  }

  lemma {:induction false} RunIndexed(s: State, es: seq<Event>)
    requires Indexed(s)
    ensures Indexed(Run(s, es))
    decreases |es|
  {
    hide Indexed, Step;
    if es == [] {
    } else {
      StepIndexed(s, es[0]);
      RunIndexed(Step(s, es[0]), es[1..]);
    }
  }

  /**
   * After any events, a name maps to a descriptor exactly when that connection
   * is live, logged in and holds the name; so no two connections share a name.
   */
  lemma NamesAgree(es: seq<Event>, name: string, fd: int)
    ensures var s := Run(Empty(), es);
            && (name in s.byName && s.byName[name] == fd <==> Holds(s, fd, name))
            && (Holds(s, fd, name) ==> Username(name) && forall other :: Holds(s, other, name) ==> other == fd)
  {
    RunIndexed(Empty(), es);
  }

  // ------------------------------------------------------------- one request

  /**
   * A message is queued for the one connection that holds the name, or its
   * sender is told there is none. Any word can be named, also an empty one.
   */
  lemma MsgDelivers(s: State, fd: int, to: string, text: string)
    requires Indexed(s) && fd in s.conns && s.conns[fd].registered
    requires ' ' !in to && |MsgLine(to, text)| <= MAX_PLAINTEXT
    ensures var after := Step(s, Recv(fd, MsgLine(to, text)));
            && after.byName == s.byName
            && (forall d :: Holds(s, d, to) ==>
                  && Changed(s, after, d, FromLine(s.conns[fd].user, text))
                  && Incoming(FromLine(s.conns[fd].user, text)) == Some((s.conns[fd].user, text)))
            && ((forall d :: !Holds(s, d, to)) ==> Changed(s, after, fd, "ERR no such user: " + to))
  {
    FromLineFits(s.conns[fd].user, to, text);
    UsernameHasNoSpace(s.conns[fd].user);
    assert LineFits("ERR no such user: " + to);
    hide Split, Incoming, Username, Message, Sent, LineFits;
    LinesSplitBack(to, text);
    LinesSplitBack(s.conns[fd].user, text);
    MessageTo(s, fd, to, text);
    SentWhole(s, fd, "ERR no such user: " + to);
    if to in s.byName {
      assert Holds(s, s.byName[to], to);
      SentWhole(s, s.byName[to], FromLine(s.conns[fd].user, text));
    }
  }

  /** Re-composed for the recipient, an accepted message still fits a record. */
  lemma FromLineFits(name: string, to: string, text: string)
    requires Username(name) && |MsgLine(to, text)| <= MAX_PLAINTEXT
    ensures LineFits(FromLine(name, text))
  {
  }

  /** One line was queued on connection d, and nothing else changed. */
  ghost predicate Changed(s: State, after: State, d: int, line: string) {
    && d in s.conns && d in after.conns
    && after.byName == s.byName
    && after.conns == s.conns[d := s.conns[d].(lines := s.conns[d].lines + [line], sealed := s.conns[d].sealed + 1)]
  }

  lemma SentWhole(s: State, d: int, line: string)
    requires d in s.conns && s.conns[d].up && LineFits(line)
    ensures Changed(s, SendTo(s, d, line), d, line)
  {
  }

  lemma MessageTo(s: State, fd: int, to: string, text: string)
    requires fd in s.conns && ' ' !in to
    ensures Message(s, fd, to + " " + text) ==
            if to !in s.byName || s.byName[to] !in s.conns then SendTo(s, fd, "ERR no such user: " + to)
            else SendTo(s, s.byName[to], FromLine(s.conns[fd].user, text))
  {
    hide SendTo, Split;
    SplitAt(to, ' ', text, 2);
    SplitFew(text, ' ');
    assert to + [' '] + text == to + " " + text;
  }

  /** d was told one line, and nothing else about it changed. */
  predicate Told(c: Conn, d: Conn, line: string) {
    d == c.(lines := c.lines + [line], sealed := c.sealed + 1)
  }

  /**
   * A login takes effect exactly when the name is well-formed and nobody holds
   * it. Then its client is greeted and every other user told, once; otherwise
   * its own connection is told which of the two it was and is to be closed.
   */
  lemma LoginDecides(s: State, fd: int, name: string)
    requires Indexed(s) && fd in s.conns && s.conns[fd].up && !s.conns[fd].registered
    requires |name| <= MAX_PLAINTEXT
    ensures var after := Login(s, fd, name);
            && after.conns.Keys == s.conns.Keys
            && (Holds(after, fd, name) <==> Username(name) && forall d :: !Holds(s, d, name))
            && (Holds(after, fd, name) ==>
                  && after.conns[fd].lines == s.conns[fd].lines + ["OK " + name]
                  && after.conns[fd].wantClose == s.conns[fd].wantClose
                  && forall d :: d in s.conns && d != fd ==>
                       if s.conns[d].registered then Told(s.conns[d], after.conns[d], "INFO " + name + " joined")
                       else after.conns[d] == s.conns[d])
            && (!Holds(after, fd, name) ==>
                  && after.byName == s.byName && after.conns == s.conns[fd := after.conns[fd]]
                  && after.conns[fd].wantClose && !after.conns[fd].registered
                  && after.conns[fd].lines
                     == s.conns[fd].lines + [if Username(name) then "ERR username taken" else INVALID_USERNAME])
  {
    assert LineFits("OK " + name) && LineFits(INVALID_USERNAME) && LineFits("ERR username taken");
    if Username(name) {
      assert LineFits("INFO " + name + " joined");
    }
    hide Username, LineFits;
    if name in s.byName {
      assert Holds(s, s.byName[name], name);
    }
  }

  /** When a connection ends, exactly the other users are told, once each, and only if it was logged in. */
  lemma DropTells(s: State, fd: int, d: int)
    requires Indexed(s) && fd in s.conns && d in s.conns && d != fd
    ensures d in Dropped(s, fd).conns && fd !in Dropped(s, fd).conns
    ensures if s.conns[fd].registered && s.conns[d].registered
            then Told(s.conns[d], Dropped(s, fd).conns[d], "INFO " + s.conns[fd].user + " left")
            else Dropped(s, fd).conns[d] == s.conns[d]
  {
  }

  /** Before its login a connection can do nothing to any other, and any line but LOGIN ends it. */
  lemma StrangersReachNobody(s: State, fd: int, line: string)
    requires fd in s.conns && !s.conns[fd].registered && Verb(line) != "LOGIN"
    ensures var after := Line(s, fd, line);
            && after.byName == s.byName && after.conns == s.conns[fd := after.conns[fd]]
            && after.conns[fd].wantClose && !after.conns[fd].registered
            && (s.conns[fd].up ==> after.conns[fd].lines == s.conns[fd].lines + ["ERR must LOGIN first"])
  {
    assert LineFits("ERR must LOGIN first");
    hide Split, LineFits;
  }

  /**
   * Of a user's lines only messages reach others: a second login, a message
   * without a recipient or text and an unknown verb are each refused with one
   * line to the user alone; QUIT only asks for the connection to be closed.
   */
  lemma RefusedAlone(s: State, fd: int, line: string)
    requires Indexed(s) && fd in s.conns && s.conns[fd].registered && |line| <= MAX_PLAINTEXT
    ensures var verb, after := Verb(line), Step(s, Recv(fd, line));
            && (verb == "LOGIN" ==> Changed(s, after, fd, "ERR already logged in"))
            && (verb == "MSG" && ' ' !in Arguments(line) ==> Changed(s, after, fd, "ERR usage: MSG <to> <text>"))
            && (verb == "QUIT" ==> after == s.(conns := s.conns[fd := s.conns[fd].(wantClose := true)]))
            && (verb !in {"LOGIN", "MSG", "WHO", "QUIT"} ==> Changed(s, after, fd, "ERR unknown command: " + verb))
  {
    VerbIsShort(line);
    assert s.conns[fd].up && LineFits("ERR already logged in") && LineFits("ERR usage: MSG <to> <text>")
           && LineFits("ERR unknown command: " + Verb(line));
    SentWhole(s, fd, "ERR already logged in");
    SentWhole(s, fd, "ERR usage: MSG <to> <text>");
    SentWhole(s, fd, "ERR unknown command: " + Verb(line));
    if ' ' !in Arguments(line) {
      SplitWord(Arguments(line));
    }
    hide Changed, Sent, Verb, Arguments, LineFits, Split, UsersLine, Indexed, SendTo;
  }

  lemma VerbIsShort(line: string)
    ensures |Verb(line)| <= |line|
  {
    SplitJoins(line, ' ', 2);
    var parts := Split(line, ' ', 2);
    if |parts| == 2 {
      assert parts[1..] == [parts[1]];
    }
  }

  /** A new connection that sends a line before its handshake is dropped, and nobody notices. */
  lemma NewcomerMustSecure(s: State, fd: int, line: string)
    requires fd !in s.conns
    ensures Step(Step(s, Accept(fd)), Recv(fd, line)) == s
  {
  }

  /** Nothing is sealed or queued for a connection before its handshake; it is to be closed instead. */
  lemma UnsecuredGetsNothing(s: State, fd: int, line: string)
    requires fd in s.conns && !s.conns[fd].up
    ensures SendTo(s, fd, line) == s.(conns := s.conns[fd := s.conns[fd].(wantClose := true)])
  {
  }

  /** The users logged in. */
  ghost function Online(s: State): set<string> {
    set fd | fd in s.conns && s.conns[fd].registered :: s.conns[fd].user
  }

  lemma OnlineIsIndexed(s: State)
    requires Indexed(s)
    ensures Online(s) == s.byName.Keys
  {
    forall n | n in s.byName ensures n in Online(s) {
      assert Holds(s, s.byName[n], n);
    }
  }

  /** For names, which are never empty, the list as it is built is the joined list. */
  lemma {:induction false} ListedIsJoined(names: seq<string>)
    requires forall i :: 0 <= i < |names| ==> names[i] != ""
    ensures Listed(names) == Join(names, ' ')
    ensures names != [] ==> Listed(names) != ""
  {
    if |names| >= 2 {
      var front := names[..|names| - 1];
      ListedIsJoined(front);
      JoinAppend(front, names[|names| - 1], ' ');
      assert front + [names[|names| - 1]] == names;
    } else if |names| == 1 {
      assert names[..0] == [];
    }
  }

  lemma {:induction false} JoinAppend(pieces: seq<string>, last: string, sep: char)
    requires pieces != []
    ensures Join(pieces + [last], sep) == Join(pieces, sep) + [sep] + last
  {
    if |pieces| > 1 {
      assert (pieces + [last])[1..] == pieces[1..] + [last];
      JoinAppend(pieces[1..], last, sep);
    } else {
      assert (pieces + [last])[1..] == [last];
    }
  }

  /** Joining is undone by splitting into as many pieces. */
  lemma {:induction false} JoinSplits(pieces: seq<string>, sep: char)
    requires pieces != [] && forall i :: 0 <= i < |pieces| ==> sep !in pieces[i]
    ensures Split(Join(pieces, sep), sep, |pieces|) == pieces
  {
    if |pieces| == 1 {
    } else {
      JoinSplits(pieces[1..], sep);
      SplitAt(pieces[0], sep, Join(pieces[1..], sep), |pieces|);
    }
  }

  /** WHO is answered with exactly the users logged in, in order, and the answer splits back into them. */
  lemma WhoLists(s: State, fd: int)
    requires Indexed(s) && fd in s.conns && s.conns[fd].registered
    ensures var names := Names.Ordered(Online(s));
            && (forall i, j :: 0 <= i < j < |names| ==> Names.Precedes(names[i], names[j]))
            && Names.Elements(names) == Online(s) && s.conns[fd].user in names
            && Step(s, Recv(fd, "WHO")) == SendTo(s, fd, "USERS " + Join(names, ' '))
            && Split(Join(names, ' '), ' ', |names|) == names
  {
    OnlineIsIndexed(s);
    WhoStep(s, fd);
    hide *;
    var names := Names.Ordered(Online(s));
    OrderedUsernames(s, names);
    Names.AscendingIsByteOrder(names);
    UserListed(s, fd, names);
    ListedIsJoined(names);
    JoinSplits(names, ' ');
  }

  lemma UserListed(s: State, fd: int, names: seq<string>)
    requires fd in s.conns && s.conns[fd].registered && Names.Elements(names) == Online(s)
    ensures s.conns[fd].user in names && names != []
  {
    assert s.conns[fd].user in Names.Elements(names);
  }

  lemma WhoStep(s: State, fd: int)
    requires Indexed(s) && fd in s.conns && s.conns[fd].registered
    ensures Step(s, Recv(fd, "WHO")) == SendTo(s, fd, "USERS " + Listed(Names.Ordered(s.byName.Keys)))
  {
    SplitWord("WHO");
    hide Split, SendTo, Login, Message;
  }

  lemma OrderedUsernames(s: State, names: seq<string>)
    requires Indexed(s) && Names.Elements(names) == s.byName.Keys
    ensures forall i :: 0 <= i < |names| ==> Username(names[i]) && names[i] != "" && ' ' !in names[i]
  {
    hide Username;
    forall i | 0 <= i < |names| ensures Username(names[i]) && names[i] != "" && ' ' !in names[i] {
      assert names[i] in Names.Elements(names);
      assert Holds(s, s.byName[names[i]], names[i]);
      UsernameHasNoSpace(names[i]);
      UsernameNotEmpty(names[i]);
    }
  }

  lemma UsernameNotEmpty(name: string)
    requires Username(name)
    ensures name != ""
  {
  }

  lemma SplitWord(word: string)
    requires ' ' !in word
    ensures Split(word, ' ', 2) == [word]
  {
  }

  // -------------------------------------------------- a channel between two users

  /** The texts of the lines that show up as coming from `sender`, in order. */
  function Heard(lines: seq<string>, sender: string): seq<string> {
    if lines == [] then []
    else
      Heard(lines[..|lines| - 1], sender) +
      match Incoming(lines[|lines| - 1])
      case None => []
      case Some((who, text)) => if who == sender then [text] else []
  }

  function Spoken(es: seq<Event>, fd: int, to: string): seq<string> {
    if es == [] then []
    else (if es[0].Recv? && es[0].fd == fd then Addressed(es[0].line, to) else []) + Spoken(es[1..], fd, to)
  }

  /** e does not end the connection. */
  predicate Spares(e: Event, fd: int) {
    e.fd == fd ==> !e.Drop? && (e.Recv? ==> |e.line| <= MAX_PLAINTEXT)
  }

  /** d's lines are as before, or one line was added that is no chat message. */
  ghost predicate HearsNothing(c: Conn, d: Conn) {
    d.lines == c.lines || (d.lines != [] && d.lines[..|d.lines| - 1] == c.lines && Incoming(d.lines[|d.lines| - 1]).None?)
  }

  lemma HeardSame(c: Conn, d: Conn, sender: string)
    requires HearsNothing(c, d)
    ensures Heard(d.lines, sender) == Heard(c.lines, sender)
  {
  }

  lemma HeardOne(lines: seq<string>, line: string, sender: string)
    ensures Heard(lines + [line], sender) == Heard(lines, sender) +
            match Incoming(line) case None => [] case Some((who, text)) => if who == sender then [text] else []
  {
    assert (lines + [line])[..|lines|] == lines;
  }

  lemma NoChat(line: string)
    requires line != "" && line[0] != 'F'
    ensures Incoming(line).None?
  {
    SplitJoins(line, ' ', 2);
  }

  lemma QuietSent(c: Conn, line: string)
    requires line != "" && line[0] != 'F'
    ensures HearsNothing(c, Sent(c, line)) && HearsNothing(c, Closing(Sent(c, line)))
  {
    NoChat(line);
  }

  lemma QuietSend(s: State, x: int, line: string, d: int)
    requires x in s.conns && d in s.conns && line != "" && line[0] != 'F'
    ensures HearsNothing(s.conns[d], SendTo(s, x, line).conns[d])
    ensures HearsNothing(s.conns[d], Refuse(s, x, line).conns[d])
  {
    QuietSent(s.conns[d], line);
    hide Sent, Incoming;
  }

  lemma QuietBroadcast(s: State, line: string, except: int, d: int)
    requires d in s.conns && line != "" && line[0] != 'F'
    ensures HearsNothing(s.conns[d], Broadcast(s, line, except).conns[d])
  {
    QuietSent(s.conns[d], line);
    hide Sent, Incoming;
  }

  lemma QuietDrop(s: State, x: int, d: int)
    requires d in s.conns && x != d
    ensures d in Dropped(s, x).conns && HearsNothing(s.conns[d], Dropped(s, x).conns[d])
  {
    hide Incoming, Broadcast;
    if x in s.conns && s.conns[x].registered {
      var c := s.conns[x];
      QuietBroadcast(State(s.conns, s.byName - {c.user}), "INFO " + c.user + " left", x, d);
      BroadcastSame(State(s.conns, s.byName - {c.user}), "INFO " + c.user + " left", x);
    }
  }

  lemma QuietLogin(s: State, x: int, args: string, d: int)
    requires Indexed(s) && x in s.conns && d in s.conns && s.conns[d].registered
    ensures d in Login(s, x, args).conns && HearsNothing(s.conns[d], Login(s, x, args).conns[d])
  {
    hide Incoming, Broadcast, Sent;
    QuietSend(s, x, "ERR already logged in", d);
    QuietSend(s, x, INVALID_USERNAME, d);
    QuietSend(s, x, "ERR username taken", d);
    if x != d {
      var named := State(s.conns[x := s.conns[x].(registered := true, user := args)], s.byName[args := x]);
      var greeted := SendTo(named, x, "OK " + args);
      assert greeted.conns[d] == s.conns[d];
      QuietBroadcast(greeted, "INFO " + args + " joined", x, d);
      BroadcastSame(greeted, "INFO " + args + " joined", x);
    }
  }

  /** A message adds its text to what its addressee hears from its sender, and nothing anywhere else. */
  lemma MessageHeard(s: State, x: int, args: string, a: int, d: int)
    requires Indexed(s) && x in s.conns && s.conns[x].registered && |args| <= MAX_PLAINTEXT
    requires a in s.conns && s.conns[a].registered && d in s.conns && s.conns[d].registered
    ensures var parts := Split(args, ' ', 2);
            && d in Message(s, x, args).conns
            && Heard(Message(s, x, args).conns[d].lines, s.conns[a].user)
            == Heard(s.conns[d].lines, s.conns[a].user) +
               (if x == a && |parts| == 2 && parts[0] == s.conns[d].user then [parts[1]] else [])
  {
    var parts := Split(args, ' ', 2);
    SplitJoins(args, ' ', 2);
    var after := Message(s, x, args);
    var from := s.conns[a].user;
    if |parts| < 2 {
      QuietSend(s, x, "ERR usage: MSG <to> <text>", d);
      HeardSame(s.conns[d], after.conns[d], from);
    } else if parts[0] !in s.byName || s.byName[parts[0]] !in s.conns {
      QuietSend(s, x, "ERR no such user: " + parts[0], d);
      HeardSame(s.conns[d], after.conns[d], from);
    } else {
      assert Join(parts, ' ') == args;
      assert parts[1..] == [parts[1]];
      hide Split, Heard, Incoming, Username;
      assert |parts[1]| <= |args|;
      assert Holds(s, s.byName[parts[0]], parts[0]);
      Delivered(s, x, s.byName[parts[0]], parts[1], a, d);
    }
  }

  lemma Delivered(s: State, x: int, y: int, text: string, a: int, d: int)
    requires Indexed(s) && x in s.conns && s.conns[x].registered && y in s.conns && s.conns[y].registered
    requires a in s.conns && s.conns[a].registered && d in s.conns && s.conns[d].registered
    requires |text| <= MAX_PLAINTEXT
    ensures Heard(SendTo(s, y, FromLine(s.conns[x].user, text)).conns[d].lines, s.conns[a].user)
         == Heard(s.conns[d].lines, s.conns[a].user) + if y == d && x == a then [text] else []
  {
    var line := FromLine(s.conns[x].user, text);
    assert LineFits(line);
    UsernameHasNoSpace(s.conns[x].user);
    LinesSplitBack(s.conns[x].user, text);
    HeardOne(s.conns[d].lines, line, s.conns[a].user);
    hide Heard, Incoming, Username, LineFits;
    assert s.conns[x].user == s.conns[a].user ==> x == a;
  }

  /** Every command but MSG is silent for the listener. */
  lemma QuietCommand(s: State, x: int, verb: string, args: string, d: int)
    requires Indexed(s) && x in s.conns && d in s.conns && s.conns[d].registered
    requires !s.conns[x].registered || verb != "MSG"
    ensures HearsNothing(s.conns[d], Command(s, x, verb, args).conns[d])
  {
    hide Indexed, HearsNothing, Login, Refuse, SendTo, UsersLine, Message;
    QuietSend(s, x, "ERR must LOGIN first", d);
    QuietLogin(s, x, args, d);
    assert UsersLine(s.byName.Keys) != "" && UsersLine(s.byName.Keys)[0] != 'F' by {
      UsersLineStarts(s.byName.Keys);
    }
    QuietSend(s, x, UsersLine(s.byName.Keys), d);
    QuietClose(s, x, d);
    QuietSend(s, x, "ERR unknown command: " + verb, d);
  }

  lemma UsersLineStarts(names: set<string>)
    ensures UsersLine(names) != "" && UsersLine(names)[0] == 'U'
  {
  }

  lemma QuietClose(s: State, x: int, d: int)
    requires x in s.conns && d in s.conns
    ensures HearsNothing(s.conns[d], s.conns[x := Closing(s.conns[x])][d])
  {
  }

  lemma LineHeard(s: State, x: int, line: string, a: int, d: int)
    requires Indexed(s) && x in s.conns && |line| <= MAX_PLAINTEXT
    requires a in s.conns && s.conns[a].registered && d in s.conns && s.conns[d].registered
    ensures d in Line(s, x, line).conns
    ensures Heard(Line(s, x, line).conns[d].lines, s.conns[a].user)
         == Heard(s.conns[d].lines, s.conns[a].user) + if x == a then Addressed(line, s.conns[d].user) else []
  {
    hide Indexed, HearsNothing, Heard, Login, Refuse, SendTo, UsersLine, Message, Split;
    var verb, args := Verb(line), Arguments(line);
    if s.conns[x].registered && verb == "MSG" {
      LineParts(line);
      MessageHeard(s, x, args, a, d);
    } else {
      QuietCommand(s, x, verb, args, d);
      HeardSame(s.conns[d], Command(s, x, verb, args).conns[d], s.conns[a].user);
    }
  }

  lemma LineParts(line: string)
    ensures |Arguments(line)| <= |line|
  {
    SplitJoins(line, ' ', 2);
    var parts := Split(line, ' ', 2);
    if |parts| == 2 {
      assert parts[1..] == [parts[1]];
    }
  }

  lemma StepHeard(s: State, e: Event, a: int, d: int)
    requires Indexed(s) && a in s.conns && s.conns[a].registered && d in s.conns && s.conns[d].registered
    requires Spares(e, a) && Spares(e, d)
    ensures StillThere(s, Step(s, e), a) && StillThere(s, Step(s, e), d)
    ensures Heard(Step(s, e).conns[d].lines, s.conns[a].user)
         == Heard(s.conns[d].lines, s.conns[a].user)
            + (if e.Recv? && e.fd == a then Addressed(e.line, s.conns[d].user) else [])
  {
    hide Heard, Addressed, Line, Dropped, Username, HearsNothing;
    var from := s.conns[a].user;
    StaysThere(s, e, a);
    StaysThere(s, e, d);
    match e
    case Accept(_) =>
    case Secure(_) =>
    case Drop(x) =>
      QuietDrop(s, x, d);
      HeardSame(s.conns[d], Dropped(s, x).conns[d], from);
    case Recv(x, line) =>
      if x in s.conns {
        if !s.conns[x].up || |line| > MAX_PLAINTEXT {
          QuietDrop(s, x, d);
          HeardSame(s.conns[d], Dropped(s, x).conns[d], from);
        } else {
          LineHeard(s, x, line, a, d);
        }
      }
  }

  ghost predicate StillThere(s: State, t: State, fd: int) {
    fd in s.conns && fd in t.conns && SameUser(s.conns[fd], t.conns[fd])
  }

  /** A user stays logged in, under the same name, until its own connection ends. */
  lemma StaysThere(s: State, e: Event, fd: int)
    requires Indexed(s) && fd in s.conns && s.conns[fd].registered && Spares(e, fd)
    ensures StillThere(s, Step(s, e), fd)
  {
    hide Username, Command, Login, Broadcast;
    if e.Recv? && e.fd in s.conns && s.conns[e.fd].up {
      CommandSame(s, e.fd, Verb(e.line), Arguments(e.line));
      LoginSpares(s, e.fd, Arguments(e.line), fd);
    }
    if e.fd in s.conns {
      var c := s.conns[e.fd];
      BroadcastSame(State(s.conns, s.byName - {c.user}), "INFO " + c.user + " left", e.fd);
    }
  }

  lemma LoginSpares(s: State, x: int, args: string, fd: int)
    requires x in s.conns && fd in s.conns && s.conns[fd].registered
    ensures StillThere(s, Login(s, x, args), fd)
  {
    hide Broadcast, Username;
    var named := State(s.conns[x := s.conns[x].(registered := true, user := args)], s.byName[args := x]);
    BroadcastSame(SendTo(named, x, "OK " + args), "INFO " + args + " joined", x);
  }

  /**
   * From one logged-in user to another the relay is a FIFO, lossless channel:
   * whatever else happens, what d's connection is given as coming from a is
   * what a sent to d's name, unchanged and in order.
   */
  lemma {:induction false} RelayIsFifo(s: State, es: seq<Event>, a: int, d: int)
    requires Indexed(s) && a in s.conns && s.conns[a].registered && d in s.conns && s.conns[d].registered
    requires forall i :: 0 <= i < |es| ==> Spares(es[i], a) && Spares(es[i], d)
    ensures StillThere(s, Run(s, es), a) && StillThere(s, Run(s, es), d)
    ensures Heard(Run(s, es).conns[d].lines, s.conns[a].user)
         == Heard(s.conns[d].lines, s.conns[a].user) + Spoken(es, a, s.conns[d].user)
    decreases |es|
  {
    hide Heard, Addressed, Step, Indexed, Spares;
    if es == [] {
    } else {
      var t := Step(s, es[0]);
      StepIndexed(s, es[0]);
      StepHeard(s, es[0], a, d);
      RelayIsFifo(t, es[1..], a, d);
    }
  }

  // ------------------------------------------------- lines are only ever appended

  ghost predicate Grows(s: State, t: State) {
    forall d :: d in s.conns && d in t.conns ==> s.conns[d].lines <= t.conns[d].lines
  }

  lemma SendGrows(s: State, fd: int, line: string)
    requires fd in s.conns
    ensures Grows(s, SendTo(s, fd, line)) && Grows(s, Refuse(s, fd, line))
  {
  }

  lemma BroadcastGrows(s: State, line: string, except: int)
    ensures Grows(s, Broadcast(s, line, except)) && Broadcast(s, line, except).conns.Keys == s.conns.Keys
  {
  }

  lemma GrowsTwice(s: State, t: State, u: State)
    requires Grows(s, t) && Grows(t, u) && s.conns.Keys == t.conns.Keys
    ensures Grows(s, u)
  {
    forall d | d in s.conns && d in u.conns ensures s.conns[d].lines <= u.conns[d].lines {
      assert d in t.conns.Keys;
    }
  }

  lemma LoginGrows(s: State, fd: int, args: string)
    requires fd in s.conns
    ensures Grows(s, Login(s, fd, args))
  {
    hide Username, SendTo, Refuse, Broadcast;
    SendGrows(s, fd, "ERR already logged in");
    SendGrows(s, fd, INVALID_USERNAME);
    SendGrows(s, fd, "ERR username taken");
    var named := State(s.conns[fd := s.conns[fd].(registered := true, user := args)], s.byName[args := fd]);
    var greeted := SendTo(named, fd, "OK " + args);
    SendGrows(named, fd, "OK " + args);
    SendSame(named, fd, "OK " + args);
    BroadcastGrows(greeted, "INFO " + args + " joined", fd);
    GrowsTwice(s, named, greeted);
    GrowsTwice(s, greeted, Broadcast(greeted, "INFO " + args + " joined", fd));
  }

  lemma MessageGrows(s: State, fd: int, args: string)
    requires fd in s.conns
    ensures Grows(s, Message(s, fd, args))
  {
    hide Grows, SendTo, Split;
    SendGrows(s, fd, "ERR usage: MSG <to> <text>");
    var parts := Split(args, ' ', 2);
    if |parts| >= 2 {
      SendGrows(s, fd, "ERR no such user: " + parts[0]);
      if parts[0] in s.byName && s.byName[parts[0]] in s.conns {
        SendGrows(s, s.byName[parts[0]], FromLine(s.conns[fd].user, parts[1]));
      }
    }
  }

  lemma CloseGrows(s: State, fd: int)
    requires fd in s.conns
    ensures Grows(s, s.(conns := s.conns[fd := Closing(s.conns[fd])]))
  {
  }

  lemma CommandGrows(s: State, fd: int, verb: string, args: string)
    requires fd in s.conns
    ensures Grows(s, Command(s, fd, verb, args))
  {
    hide Grows, SendTo, Refuse, Message, UsersLine, Login;
    SendGrows(s, fd, "ERR must LOGIN first");
    LoginGrows(s, fd, args);
    MessageGrows(s, fd, args);
    SendGrows(s, fd, UsersLine(s.byName.Keys));
    CloseGrows(s, fd);
    SendGrows(s, fd, "ERR unknown command: " + verb);
  }

  lemma DroppedGrows(s: State, fd: int)
    ensures Grows(s, Dropped(s, fd))
  {
    hide Broadcast;
    if fd in s.conns {
      var c := s.conns[fd];
      BroadcastGrows(State(s.conns, s.byName - {c.user}), "INFO " + c.user + " left", fd);
    }
  }

  /** No event takes back or changes a line that was queued for a connection. */
  lemma StepGrows(s: State, e: Event)
    ensures Grows(s, Step(s, e))
  {
    hide Command, Dropped;
    match e
    case Accept(_) =>
    case Secure(_) =>
    case Drop(fd) => DroppedGrows(s, fd);
    case Recv(fd, line) =>
      DroppedGrows(s, fd);
      if fd in s.conns {
        CommandGrows(s, fd, Verb(line), Arguments(line));
      }
  }
}
