/**
 * The relay server's state: connections by descriptor and descriptors by name,
 * and what each line a client sends does to both.
 */
module Relay {
  import opened Wrappers
  import opened Protocol
  import opened Crypto
  import Grammar
  import Names

  /**
   * One connection. `lines` are the lines queued for it, `sealed` counts the
   * sequence numbers its session has spent on them.
   */
  datatype Conn = Conn(fd: int, registered: bool, user: string, up: bool, sealed: nat,
                       lines: seq<string>, wantClose: bool)

  datatype State = State(conns: map<int, Conn>, byName: map<string, int>)

  const INVALID_USERNAME: string := "ERR " + "invalid username (1-32 chars, letters/digits/underscore)"

  // ------------------------------------------------------------------- sending

  /** A sealed line that enqueue accepts. */
  predicate LineFits(line: string) {
    |line| + TAG_LEN + 1 <= MAX_RECORD
  }

  /** Sealed and queued; a line that is too long is sealed and then dropped. */
  function Sent(c: Conn, line: string): Conn {
    if !c.up then c.(wantClose := true)
    else c.(sealed := c.sealed + 1, lines := if LineFits(line) then c.lines + [line] else c.lines)
  }

  function Closing(c: Conn): Conn {
    c.(wantClose := true)
  }

  function SendTo(s: State, fd: int, line: string): State
    requires fd in s.conns
  {
    s.(conns := s.conns[fd := Sent(s.conns[fd], line)])
  }

  function Broadcast(s: State, line: string, except: int): State {
    s.(conns := map fd | fd in s.conns ::
                  if fd == except || !s.conns[fd].registered then s.conns[fd] else Sent(s.conns[fd], line))
  }

  // ------------------------------------------------------------------ handlers

  function Login(s: State, fd: int, args: string): State
    requires fd in s.conns
  {
    if s.conns[fd].registered then SendTo(s, fd, "ERR already logged in")
    else if !Grammar.Username(args) then
      Refuse(s, fd, INVALID_USERNAME)
    else if args in s.byName then Refuse(s, fd, "ERR username taken")
    else
      var named := State(s.conns[fd := s.conns[fd].(registered := true, user := args)], s.byName[args := fd]);
      Broadcast(SendTo(named, fd, "OK " + args), "INFO " + args + " joined", fd)
  }

  /** An error line, after which the connection is to be closed. */
  function Refuse(s: State, fd: int, line: string): State
    requires fd in s.conns
  {
    s.(conns := s.conns[fd := Closing(Sent(s.conns[fd], line))])
  }

  function Message(s: State, fd: int, args: string): State
    requires fd in s.conns
  {
    var parts := Grammar.Split(args, ' ', 2);
    if |parts| < 2 then SendTo(s, fd, "ERR usage: MSG <to> <text>")
    else if parts[0] !in s.byName || s.byName[parts[0]] !in s.conns then
      SendTo(s, fd, "ERR no such user: " + parts[0])
    else SendTo(s, s.byName[parts[0]], Grammar.FromLine(s.conns[fd].user, parts[1]))
  }

  /** The list as it is built: a space only once something precedes it. */
  function Listed(names: seq<string>): string {
    if names == [] then ""
    else
      var front := Listed(names[..|names| - 1]);
      (if front == "" then "" else front + " ") + names[|names| - 1]
  }

  ghost function UsersLine(names: set<string>): string {
    "USERS " + Listed(Names.Ordered(names))
  }

  /** What each verb does, once split off its arguments. */
  ghost function Command(s: State, fd: int, verb: string, args: string): (r: State)
    requires fd in s.conns
    ensures r.conns.Keys == s.conns.Keys
  {
    if !s.conns[fd].registered && verb != "LOGIN" then Refuse(s, fd, "ERR must LOGIN first")
    else if verb == "LOGIN" then Login(s, fd, args)
    else if verb == "MSG" then Message(s, fd, args)
    else if verb == "WHO" then SendTo(s, fd, UsersLine(s.byName.Keys))
    else if verb == "QUIT" then s.(conns := s.conns[fd := Closing(s.conns[fd])])
    else SendTo(s, fd, "ERR unknown command: " + verb)
  }

  ghost function Line(s: State, fd: int, line: string): (r: State)
    requires fd in s.conns
    ensures r.conns.Keys == s.conns.Keys
  {
    Command(s, fd, Grammar.Verb(line), Grammar.Arguments(line))
  }

  function Dropped(s: State, fd: int): State {
    if fd !in s.conns then s
    else
      var c := s.conns[fd];
      var left := if c.registered then Broadcast(State(s.conns, s.byName - {c.user}), "INFO " + c.user + " left", fd) else s;
      left.(conns := left.conns - {fd})
  }

  /** The kernel never hands out a descriptor that is still open. */
  function Accepted(s: State, fd: int): State {
    if fd in s.conns then s else s.(conns := s.conns[fd := Conn(fd, false, "", false, 0, [], false)])
  }

  /** The handshake on fd completed. */
  function Secured(s: State, fd: int): State {
    if fd in s.conns then s.(conns := s.conns[fd := s.conns[fd].(up := true)]) else s
  }

  // -------------------------------------------------------------------- server

  class Server {
    var conns: map<int, Conn>
    var byName: map<string, int>

    function View(): State
      reads this
    {
      State(conns, byName)
    }

    constructor ()
      ensures View() == State(map[], map[])
    {
      conns, byName := map[], map[];
    }

    method SendLine(fd: int, line: string)
      requires fd in conns
      modifies this
      ensures View() == SendTo(old(View()), fd, line)
    {
      var c := conns[fd];
      if !c.up {
        conns := conns[fd := c.(wantClose := true)];
        return;
      }
      c := c.(sealed := c.sealed + 1);
      if |line| + TAG_LEN + 1 <= MAX_RECORD {
        c := c.(lines := c.lines + [line]);
      }
      conns := conns[fd := c];
    }

    method CloseSoon(fd: int)
      requires fd in conns
      modifies this
      ensures View() == old(View()).(conns := old(conns)[fd := Closing(old(conns)[fd])])
    {
      conns := conns[fd := conns[fd].(wantClose := true)];
    }

    method BroadcastLine(line: string, except: int)
      modifies this
      ensures View() == Broadcast(old(View()), line, except)
    {
      ghost var before := View();
      var left: set<int> := conns.Keys;
      while left != {}
        invariant left <= conns.Keys
        invariant conns.Keys == before.conns.Keys && byName == before.byName
        invariant forall fd :: fd in conns ==>
                                 conns[fd] == if fd in left then before.conns[fd]
                                              else Broadcast(before, line, except).conns[fd]
        decreases left
      {
        Names.SomeMember(left);
        var next: int :| next in left;
        left := left - {next};
        if next == except || !conns[next].registered {
          continue;
        }
        SendLine(next, line);
      }
      assert conns == Broadcast(before, line, except).conns;
    }

    method HandleLogin(fd: int, args: string)
      requires fd in conns
      modifies this
      ensures View() == Login(old(View()), fd, args)
    {
      hide Sent, Broadcast;
      if conns[fd].registered {
        SendLine(fd, "ERR already logged in");
        return;
      }
      var valid := Grammar.ValidUsername(args);
      if !valid {
        SendLine(fd, INVALID_USERNAME);
        CloseSoon(fd);
        return;
      }
      if args in byName {
        SendLine(fd, "ERR username taken");
        CloseSoon(fd);
        return;
      }
      conns := conns[fd := conns[fd].(registered := true, user := args)];
      byName := byName[args := fd];
      SendLine(fd, "OK " + args);
      BroadcastLine("INFO " + args + " joined", fd);
    }

    method HandleMsg(fd: int, args: string)
      requires fd in conns
      modifies this
      ensures View() == Message(old(View()), fd, args)
    {
      var parts := Grammar.SplitN(args, ' ', 2);
      if |parts| < 2 {
        SendLine(fd, "ERR usage: MSG <to> <text>");
        return;
      }
      var to, text := parts[0], parts[1];
      if to !in byName || byName[to] !in conns {
        SendLine(fd, "ERR no such user: " + to);
        return;
      }
      SendLine(byName[to], Grammar.FromLine(conns[fd].user, text));
    }

    method HandleWho(fd: int)
      requires fd in conns
      modifies this
      ensures View() == SendTo(old(View()), fd, UsersLine(old(byName).Keys))
    {
      hide SendTo, Names.Ascending;
      var names := Names.Sorted(byName.Keys);
      var list := "";
      var i := 0;
      while i < |names|
        invariant 0 <= i <= |names| && list == Listed(names[..i])
      {
        assert names[..i + 1][..i] == names[..i];
        if list != "" {
          list := list + " ";
        }
        list := list + names[i];
        i := i + 1;
      }
      assert names[..i] == names;
      SendLine(fd, "USERS " + list);
    }

    method HandleLine(fd: int, line: string)
      requires fd in conns
      modifies this
      ensures View() == Line(old(View()), fd, line)
    {
      hide Login, Message, UsersLine, Sent, Grammar.Split;
      var parts := Grammar.SplitN(line, ' ', 2);
      Grammar.SplitJoins(line, ' ', 2);
      var verb := parts[0];
      var args := if |parts| > 1 then parts[1] else "";
      if !conns[fd].registered && verb != "LOGIN" {
        SendLine(fd, "ERR must LOGIN first");
        CloseSoon(fd);
      } else if verb == "LOGIN" {
        HandleLogin(fd, args);
      } else if verb == "MSG" {
        HandleMsg(fd, args);
      } else if verb == "WHO" {
        HandleWho(fd);
      } else if verb == "QUIT" {
        CloseSoon(fd);
      } else {
        SendLine(fd, "ERR unknown command: " + verb);
      }
    }

    /** The handshake on fd completed. */
    method Secure(fd: int)
      requires fd in conns
      modifies this
      ensures View() == Secured(old(View()), fd)
    {
      conns := conns[fd := conns[fd].(up := true)];
    }

    method DropConn(fd: int)
      modifies this
      ensures View() == Dropped(old(View()), fd)
    {
      hide Broadcast;
      if fd !in conns {
        return;
      }
      var c := conns[fd];
      if c.registered {
        byName := byName - {c.user};
        BroadcastLine("INFO " + c.user + " left", fd);
      }
      conns := conns - {fd};
    }

    method Accept(fd: int)
      modifies this
      ensures View() == Accepted(old(View()), fd)
    {
      var c := Conn(fd, false, "", false, 0, [], false);
      if fd !in conns {
        conns := conns[fd := c];
      }
    }
  }
}
