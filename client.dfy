/** The client of a two-player match.  Lines typed by the player and
    messages from the server are routed to the command interpreter, to the
    server or to the display; commands change the connection state.  The
    sockets, the local server and the process are outside the model: each
    call into them is an `Effect`, and whether it succeeds is given by an
    `Io` parameter. */
module Client {
  import C = Commands
  import Rules

  /** What the client shows the player. */
  datatype Notice =
    | HostSetTo(host: string)
    | PortSetTo(port: int)
    | HostIs(host: string)
    | PortIs(port: int)
    | AlreadyConnected
    | CannotOpen
    | CouldNotDisconnect
    | CouldNotSend
    | ListenFailed
    | YouWon
    | ServerText(text: string)

  /** A call out of the client: showing a notice, an attempt to open,
      close or send on the connection, starting the local server on a
      port, restarting both boards, handing a snapshot to the opponent's
      board, and ending the process. */
  datatype Effect =
    | Show(notice: Notice)
    | Open
    | Close
    | Send(text: string)
    | Listen(port: int)
    | RestartBoards
    | Mirror(update: Rules.Snapshot)
    | Exit

  /** Whether opening, closing, sending and listening succeed during one
      operation (each is attempted at most once per operation). */
  datatype Io = Io(openOk: bool, closeOk: bool, sendOk: bool, listenOk: bool)

  /** The client's state: connected or not, the host and port it connects
      to, and whether the process has ended. */
  datatype Conn = Conn(connected: bool, host: string, port: int, exited: bool)

  /** What an operation leaves: the new state and its effects, in order. */
  datatype Run = Run(conn: Conn, effects: seq<Effect>)

  // ---------------------------------------------------------------------
  // Connection steps

  /** `connect`: only a disconnected client tries to open. */
  function ConnectStep(c: Conn, io: Io): Run
  {
    if c.connected then Run(c, [Show(AlreadyConnected)])
    else if io.openOk then Run(c.(connected := true), [Open])
    else Run(c, [Open, Show(CannotOpen)])
  }

  /** `disconnect`: close, reporting a failure. */
  function DisconnectStep(c: Conn, io: Io): Run
  {
    if io.closeOk then Run(c.(connected := false), [Close])
    else Run(c, [Close, Show(CouldNotDisconnect)])
  }

  /** `quit`: close, ignoring a failure, and end the process. */
  function QuitStep(c: Conn, io: Io): Run
  {
    Run(c.(connected := c.connected && !io.closeOk, exited := true), [Close, Exit])
  }

  /** `start`: start the local server on the client's port, ending the
      process when it cannot listen, and connect. */
  function StartStep(c: Conn, io: Io): Run
  {
    if io.listenOk then
      var k := ConnectStep(c, io);
      Run(k.conn, [Listen(c.port)] + k.effects)
    else Run(c.(exited := true), [Listen(c.port), Show(ListenFailed), Exit])
  }

  /** `matchWon`: announce the win and restart both boards. */
  function MatchWonStep(c: Conn): Run
  {
    Run(c, [Show(YouWon), RestartBoards])
  }

  /** The disconnect that `sethost` and `setport` make first, only when
      connected. */
  function DisconnectIfConnectedStep(c: Conn, io: Io): Run
  {
    if c.connected then DisconnectStep(c, io) else Run(c, [])
  }

  /** `sethost`: disconnect when connected, set the host, show it, and
      connect. */
  function SetHostStep(c: Conn, h: string, io: Io): Run
  {
    var d := DisconnectIfConnectedStep(c, io);
    var k := ConnectStep(d.conn.(host := h), io);
    Run(k.conn, d.effects + [Show(HostSetTo(h))] + k.effects)
  }

  /** `setport`: disconnect when connected, set the port and show it. */
  function SetPortStep(c: Conn, p: int, io: Io): Run
  {
    var d := DisconnectIfConnectedStep(c, io);
    Run(d.conn.(port := p), d.effects + [Show(PortSetTo(p))])
  }

  /** What a command does; a failure to forward is ignored. */
  function ExecuteStep(c: Conn, cmd: C.Command, io: Io): Run
  {
    match cmd
    case Connect => ConnectStep(c, io)
    case Disconnect => DisconnectStep(c, io)
    case StartServer => StartStep(c, io)
    case Quit => QuitStep(c, io)
    case MatchWon => MatchWonStep(c)
    case SetHost(h) => SetHostStep(c, h, io)
    case SetPort(p) => SetPortStep(c, p, io)
    case GetHost => Run(c, [Show(HostIs(c.host))])
    case GetPort => Run(c, [Show(PortIs(c.port))])
    case Forward(t) => Run(c, [Send(t)])
  }

  /** `commandMessage` on a line without its prefix. */
  function CommandStep(c: Conn, line: string, io: Io): Run
    requires C.Runnable(line)
  {
    ExecuteStep(c, C.CommandMessage(line), io)
  }

  // ---------------------------------------------------------------------
  // Routing

  /** Where a line typed by the player goes. */
  datatype UIRoute = Ignored | ToCommand(line: string) | ToServer(text: string)

  function RouteFromUI(message: string): UIRoute
  {
    if message == "" then Ignored
    else if message[0] == '#' || message[0] == '/' then ToCommand(message[1..])
    else ToServer(message)
  }

  /** What comes from the server: a board snapshot or a line of text. */
  datatype Incoming = Update(snapshot: Rules.Snapshot) | Text(text: string)

  /** Where a message from the server goes. */
  datatype ServerRoute = ToOpponent(snapshot: Rules.Snapshot) | ServerCommand(line: string) | ToDisplay(text: string)

  function RouteFromServer(msg: Incoming): ServerRoute
  {
    match msg
    case Update(u) => ToOpponent(u)
    case Text(t) => if |t| > 0 && t[0] == '/' then ServerCommand(t[1..]) else ToDisplay("> " + t)
  }

  /** A typed line whose command, if it is one, can be run. */
  predicate UIRunnable(message: string)
  {
    RouteFromUI(message).ToCommand? ==> C.Runnable(RouteFromUI(message).line)
  }

  /** A server message whose command, if it is one, can be run. */
  predicate ServerRunnable(msg: Incoming)
  {
    RouteFromServer(msg).ServerCommand? ==> C.Runnable(RouteFromServer(msg).line)
  }

  /** `handleMessageFromClientUI`: a failure to send a chat line is
      reported and ends the client. */
  function FromClientUI(c: Conn, message: string, io: Io): Run
    requires UIRunnable(message)
  {
    match RouteFromUI(message)
    case Ignored => Run(c, [])
    case ToCommand(line) => CommandStep(c, line, io)
    case ToServer(t) =>
      if io.sendOk then Run(c, [Send(t)])
      else
        var q := QuitStep(c, io);
        Run(q.conn, [Send(t), Show(CouldNotSend)] + q.effects)
  }

  /** `handleMessageFromServer`. */
  function FromServer(c: Conn, msg: Incoming, io: Io): Run
    requires ServerRunnable(msg)
  {
    match RouteFromServer(msg)
    case ToOpponent(u) => Run(c, [Mirror(u)])
    case ServerCommand(line) => CommandStep(c, line, io)
    case ToDisplay(t) => Run(c, [Show(ServerText(t))])
  }

  // ---------------------------------------------------------------------
  // Properties

  /** A typed line is ignored exactly when it is empty; a line with a `#`
      or `/` in front is a command, which is the rest of the line; any
      other line goes to the server unchanged. */
  lemma RouteFromUIClassifies(message: string)
    ensures RouteFromUI(message).Ignored? <==> message == ""
    ensures RouteFromUI(message).ToCommand? <==> |message| > 0 && message[0] in {'#', '/'}
    ensures RouteFromUI(message).ToCommand? ==> message == [message[0]] + RouteFromUI(message).line
    ensures RouteFromUI(message).ToServer? ==> RouteFromUI(message).text == message
  {
    if |message| > 0 {
      assert message == [message[0]] + message[1..];
    }
  }

  /** `#` and `/` introduce the same command from the keyboard. */
  lemma HashAndSlashAgree(c: Conn, line: string, io: Io)
    requires C.Runnable(line)
    ensures UIRunnable("#" + line) && UIRunnable("/" + line)
    ensures FromClientUI(c, "#" + line, io) == FromClientUI(c, "/" + line, io)
    ensures FromClientUI(c, "/" + line, io) == CommandStep(c, line, io)
  {
    assert ("#" + line)[1..] == line;
    assert ("/" + line)[1..] == line;
  }

  /** A snapshot from the server only goes to the opponent's board; a text
      is a command only after `/`, and is shown with "> " otherwise, so a
      `#` line from the server is shown, not run. */
  lemma RouteFromServerClassifies(msg: Incoming, line: string)
    ensures RouteFromServer(msg).ToOpponent? <==> msg.Update?
    ensures msg.Update? ==> RouteFromServer(msg) == ToOpponent(msg.snapshot)
    ensures msg.Text? && |msg.text| > 0 && msg.text[0] == '/' ==> RouteFromServer(msg) == ServerCommand(msg.text[1..])
    ensures msg.Text? && (|msg.text| == 0 || msg.text[0] != '/') ==> RouteFromServer(msg) == ToDisplay("> " + msg.text)
    ensures RouteFromServer(Text("#" + line)) == ToDisplay("> #" + line)
  {
    var t := "#" + line;
    assert t[0] == '#';
  }

  /** The connect guard: an open is attempted exactly when the client is
      not connected, and it ends connected when it was or the open
      succeeded. */
  lemma ConnectGuard(c: Conn, io: Io)
    ensures var r := ConnectStep(c, io);
      && (Open in r.effects <==> !c.connected)
      && (Show(AlreadyConnected) in r.effects <==> c.connected)
      && Close !in r.effects
      && r.conn == c.(connected := c.connected || io.openOk)
  {
  }

  /** Disconnecting closes first, opens nothing, and leaves the client
      disconnected unless the close fails. */
  lemma DisconnectCloses(c: Conn, io: Io)
    ensures var r := DisconnectStep(c, io);
      && |r.effects| >= 1 && r.effects[0] == Close && Open !in r.effects
      && r.conn == c.(connected := c.connected && !io.closeOk)
  {
  }

  /** `sethost` sets the host and keeps the port; it closes exactly when
      the client was connected, and attempts an open exactly when the
      client is disconnected by then. */
  lemma SetHostReconnects(c: Conn, h: string, io: Io)
    ensures var r := SetHostStep(c, h, io);
      && r.conn.host == h && r.conn.port == c.port && r.conn.exited == c.exited
      && (Close in r.effects <==> c.connected)
      && (Open in r.effects <==> !(c.connected && !io.closeOk))
      && r.conn.connected == ((c.connected && !io.closeOk) || io.openOk)
  {
    var d := DisconnectIfConnectedStep(c, io);
    var k := ConnectStep(d.conn.(host := h), io);
    ConnectGuard(d.conn.(host := h), io);
    assert SetHostStep(c, h, io).effects == d.effects + ([Show(HostSetTo(h))] + k.effects);
  }

  /** `sethost` works in order: every close comes before the notice of the
      new host, and every open after it. */
  lemma SetHostOrder(c: Conn, h: string, io: Io)
    ensures exists before, after ::
      && SetHostStep(c, h, io).effects == before + [Show(HostSetTo(h))] + after
      && Open !in before && Close !in after
  {
    var d := DisconnectIfConnectedStep(c, io);
    var k := ConnectStep(d.conn.(host := h), io);
    ConnectGuard(d.conn.(host := h), io);
    assert SetHostStep(c, h, io).effects == d.effects + [Show(HostSetTo(h))] + k.effects;
  }

  /** `setport` disconnects first when connected and sets the port, but
      never reconnects. */
  lemma SetPortDoesNotReconnect(c: Conn, p: int, io: Io)
    ensures var r := SetPortStep(c, p, io);
      && r.conn == c.(port := p, connected := c.connected && !io.closeOk)
      && Open !in r.effects
      && (Close in r.effects <==> c.connected)
      && r.effects[|r.effects| - 1] == Show(PortSetTo(p))
  {
  }

  /** `quit` and `exit` always end the client, as its last effect. */
  lemma QuitEnds(c: Conn, io: Io)
    ensures var r := QuitStep(c, io);
      && r.conn.exited && r.effects[|r.effects| - 1] == Exit
      && Open !in r.effects && Close in r.effects
      && r.conn.connected == (c.connected && !io.closeOk)
      && r.conn.host == c.host && r.conn.port == c.port
  {
  }

  /** `start` starts the local server on the current port first; when it
      cannot listen the client ends without connecting, otherwise it goes
      on as `connect`. */
  lemma StartListensFirst(c: Conn, io: Io)
    ensures var r := StartStep(c, io);
      && |r.effects| >= 1 && r.effects[0] == Listen(c.port)
      && (!io.listenOk ==> r.conn.exited && r.effects[|r.effects| - 1] == Exit && Open !in r.effects)
      && (io.listenOk ==> r.conn.exited == c.exited && (Open in r.effects <==> !c.connected))
  {
    if io.listenOk {
      ConnectGuard(c, io);
    }
  }

  /** A command that is not a keyword is passed on to the server, whole,
      and changes nothing else. */
  lemma UnknownForwarded(c: Conn, line: string, io: Io)
    requires C.Runnable(line) && C.Lower(C.Instruction(line)) !in C.Keywords
    ensures CommandStep(c, line, io) == Run(c, [Send("/" + line)])
  {
    C.ForwardsUnknown(line);
  }

  /** Only the match-won command announces a win or restarts the boards. */
  lemma ExecuteWins(c: Conn, cmd: C.Command, io: Io)
    ensures var r := ExecuteStep(c, cmd, io);
      && (Show(YouWon) in r.effects <==> cmd.MatchWon?)
      && (RestartBoards in r.effects <==> cmd.MatchWon?)
  {
    match cmd {
      case SetHost(h) =>
        var d := DisconnectIfConnectedStep(c, io);
        var k := ConnectStep(d.conn.(host := h), io);
        assert ExecuteStep(c, cmd, io).effects == d.effects + [Show(HostSetTo(h))] + k.effects;
      case _ =>
    }
  }

  /** Since the match-won command cannot be produced, no line, typed or
      received, ever announces a win or restarts the boards. */
  lemma NoLineWins(c: Conn, message: string, msg: Incoming, io: Io)
    requires UIRunnable(message) && ServerRunnable(msg)
    ensures var r := FromClientUI(c, message, io);
      Show(YouWon) !in r.effects && RestartBoards !in r.effects
    ensures var r := FromServer(c, msg, io);
      Show(YouWon) !in r.effects && RestartBoards !in r.effects
  {
    match RouteFromUI(message) {
      case ToCommand(line) =>
        C.GameOverUnreachable(line);
        ExecuteWins(c, C.CommandMessage(line), io);
      case _ =>
    }
    match RouteFromServer(msg) {
      case ServerCommand(line) =>
        C.GameOverUnreachable(line);
        ExecuteWins(c, C.CommandMessage(line), io);
      case _ =>
    }
  }

  /** A chat line goes to the server verbatim; when it cannot be sent the
      failure is shown and the client ends. */
  lemma ChatSentVerbatim(c: Conn, message: string, io: Io)
    requires message != "" && message[0] != '#' && message[0] != '/'
    ensures UIRunnable(message)
    ensures var r := FromClientUI(c, message, io);
      && r.effects[0] == Send(message)
      && (io.sendOk ==> r == Run(c, [Send(message)]))
      && (!io.sendOk ==> r.conn.exited && Show(CouldNotSend) in r.effects && r.effects[|r.effects| - 1] == Exit)
  {
  }

  // ---------------------------------------------------------------------
  // The client object

  /** `TetrisClient`: the connection state changes in place, and every
      effect is appended to `log`. */
  class TetrisClient {
    var connected: bool
    var host: string
    var port: int
    var exited: bool
    var log: seq<Effect>

    function Model(): Conn
      reads this
    {
      Conn(connected, host, port, exited)
    }

    /** A new client knows where to connect but is not connected. */
    constructor (h: string, p: int)
      ensures Model() == Conn(false, h, p, false) && log == []
    {
      connected, host, port, exited, log := false, h, p, false, [];
    }

    method Record(e: Effect)
      modifies this
      ensures Model() == old(Model()) && log == old(log) + [e]
    {
      log := log + [e];
    }

    method Connect(io: Io)
      requires !exited
      modifies this
      ensures var r := ConnectStep(old(Model()), io); Model() == r.conn && log == old(log) + r.effects
    {
      if connected {
        Record(Show(AlreadyConnected));
      } else {
        Record(Open);
        if io.openOk {
          connected := true;
        } else {
          Record(Show(CannotOpen));
        }
      }
    }

    method Disconnect(io: Io)
      requires !exited
      modifies this
      ensures var r := DisconnectStep(old(Model()), io); Model() == r.conn && log == old(log) + r.effects
    {
      Record(Close);
      if io.closeOk {
        connected := false;
      } else {
        Record(Show(CouldNotDisconnect));
      }
    }

    method Quit(io: Io)
      requires !exited
      modifies this
      ensures var r := QuitStep(old(Model()), io); Model() == r.conn && log == old(log) + r.effects
    {
      Record(Close);
      if io.closeOk {
        connected := false;
      }
      Record(Exit);
      exited := true;
    }

    method Start(io: Io)
      requires !exited
      modifies this
      ensures var r := StartStep(old(Model()), io); Model() == r.conn && log == old(log) + r.effects
    {
      Record(Listen(port));
      if !io.listenOk {
        Record(Show(ListenFailed));
        Record(Exit);
        exited := true;
      } else {
        Connect(io);
      }
    }

    method MatchWon()
      requires !exited
      modifies this
      ensures var r := MatchWonStep(old(Model())); Model() == r.conn && log == old(log) + r.effects
    {
      Record(Show(YouWon));
      Record(RestartBoards);
    }

    method DisconnectIfConnected(io: Io)
      requires !exited
      modifies this
      ensures var r := DisconnectIfConnectedStep(old(Model()), io); Model() == r.conn && log == old(log) + r.effects
    {
      if connected {
        Disconnect(io);
      }
    }

    /** The `sethost` case of `commandMessage`. */
    method SetHost(h: string, io: Io)
      requires !exited
      modifies this
      ensures var r := SetHostStep(old(Model()), h, io); Model() == r.conn && log == old(log) + r.effects
    {
      DisconnectIfConnected(io);
      host := h;
      Record(Show(HostSetTo(host)));
      Connect(io);
    }

    /** The `setport` case of `commandMessage`. */
    method SetPort(p: int, io: Io)
      requires !exited
      modifies this
      ensures var r := SetPortStep(old(Model()), p, io); Model() == r.conn && log == old(log) + r.effects
    {
      DisconnectIfConnected(io);
      port := p;
      Record(Show(PortSetTo(port)));
    }

    /** The switch of `commandMessage`. */
    method Execute(cmd: C.Command, io: Io)
      requires !exited
      modifies this
      ensures var r := ExecuteStep(old(Model()), cmd, io); Model() == r.conn && log == old(log) + r.effects
    {
      match cmd {
        case Connect => Connect(io);
        case Disconnect => Disconnect(io);
        case StartServer => Start(io);
        case Quit => Quit(io);
        case MatchWon => MatchWon();
        case SetHost(h) => SetHost(h, io);
        case SetPort(p) => SetPort(p, io);
        case GetHost => Record(Show(HostIs(host)));
        case GetPort => Record(Show(PortIs(port)));
        case Forward(t) => Record(Send(t));
      }
    }

    /** `commandMessage`: classify the line, then act on it. */
    method CommandMessage(line: string, io: Io)
      requires !exited && C.Runnable(line)
      modifies this
      ensures var r := CommandStep(old(Model()), line, io); Model() == r.conn && log == old(log) + r.effects
    {
      var cmd := C.CommandMessage(line);
      Execute(cmd, io);
    }

    method HandleMessageFromClientUI(message: string, io: Io)
      requires !exited && UIRunnable(message)
      modifies this
      ensures var r := FromClientUI(old(Model()), message, io); Model() == r.conn && log == old(log) + r.effects
    {
      match RouteFromUI(message) {
        case Ignored =>
        case ToCommand(line) => CommandMessage(line, io);
        case ToServer(t) =>
          Record(Send(t));
          if !io.sendOk {
            Record(Show(CouldNotSend));
            Quit(io);
          }
      }
    }

    method HandleMessageFromServer(msg: Incoming, io: Io)
      requires !exited && ServerRunnable(msg)
      modifies this
      ensures var r := FromServer(old(Model()), msg, io); Model() == r.conn && log == old(log) + r.effects
    {
      match RouteFromServer(msg) {
        case ToOpponent(u) => Record(Mirror(u));
        case ServerCommand(line) => CommandMessage(line, io);
        case ToDisplay(t) => Record(Show(ServerText(t)));
      }
    }
  }
}
