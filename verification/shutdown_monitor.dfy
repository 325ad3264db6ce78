/**
 * The administrative command protocol of the shutdown monitor. Each accepted
 * connection delivers one line; `shutdown` and `status` are recognised
 * ignoring case and every handled line gets exactly one reply line. The
 * `running` flag is switched off once, by a compare-and-set in `stop()`.
 *
 * Sockets and threads are abstracted: the listening socket is a `Listener`
 * state, a connection is the line it delivers (or an I/O error), and the
 * thread-pooled server is reduced to its `stopped` flag.
 */
module Monitor {
  import opened Wrappers
  import opened Text

  const ShutdownCommand := "shutdown"
  const StatusCommand := "status"

  const ShuttingDownReply := "Shutting down server..."
  const AliveReply := "Server status: ALIVE"
  const StoppedReply := "Server status: STOPPED"
  const UnknownReply := "Unknown command. Available commands: status, shutdown"

  datatype Command = Shutdown | Status | Unknown

  /** `command.equalsIgnoreCase(line)`; a null line (peer closed early) matches nothing. */
  predicate Matches(command: string, line: Option<string>) {
    line.Some? && EqualsIgnoreCase(command, line.value)
  }

  /**
   * The dispatch on the line read: `shutdown` is tried first, then `status`;
   * anything else, a null line included, is an unknown command.
   */
  function Parse(line: Option<string>): (c: Command)
    ensures c == Shutdown <==> line.Some? && LowerAscii(line.value) == ShutdownCommand
    ensures c == Status <==> line.Some? && LowerAscii(line.value) == StatusCommand
    ensures line.None? ==> c == Unknown
  {
    match line
    case None => Unknown
    case Some(text) =>
      EqualsIgnoreCaseByLower(ShutdownCommand, text);
      EqualsIgnoreCaseByLower(StatusCommand, text);
      assert LowerAscii(ShutdownCommand) == ShutdownCommand;
      assert LowerAscii(StatusCommand) == StatusCommand;
      if Matches(ShutdownCommand, line) then Shutdown
      else if Matches(StatusCommand, line) then Status
      else Unknown
  }

  /** Lines that differ only in ASCII letter case are the same command. */
  lemma ParseCaseInsensitive(a: string, b: string)
    requires EqualsIgnoreCase(a, b)
    ensures Parse(Some(a)) == Parse(Some(b))
  {
    EqualsIgnoreCaseByLower(a, b);
  }

  /** The single reply line for a command; `status` reports the server's flag. */
  function Reply(c: Command, serverStopped: bool): string {
    match c
    case Shutdown => ShuttingDownReply
    case Status => if serverStopped then StoppedReply else AliveReply
    case Unknown => UnknownReply
  }

  /** The reply tells the client which command ran, and for `status` the server's state. */
  lemma ReplyIdentifiesCommand(c1: Command, stopped1: bool, c2: Command, stopped2: bool)
    requires Reply(c1, stopped1) == Reply(c2, stopped2)
    ensures c1 == c2
    ensures c1 == Status ==> stopped1 == stopped2
  {
    // the four replies have four different lengths
    assert |ShuttingDownReply| == 23 && |UnknownReply| == 53;
    assert |AliveReply| == 20 && |StoppedReply| == 22;
  }

  /** The listening socket: not yet bound (`serverSocket == null`), open, or closed. */
  datatype Listener = Unbound | Open | Closed

  /** The part of the system the protocol reads and changes. */
  datatype MonitorState = MonitorState(running: bool, listener: Listener, serverStopped: bool)

  /**
   * `stop()`: only the call that flips `running` from true to false closes the
   * listening socket, and only when it exists and is open.
   */
  function StopState(s: MonitorState): (t: MonitorState)
    ensures !t.running && t.serverStopped == s.serverStopped
    ensures s.running && s.listener == Open ==> t.listener == Closed
    ensures !(s.running && s.listener == Open) ==> t.listener == s.listener
    ensures !s.running ==> t == s
  {
    if s.running then
      s.(running := false, listener := if s.listener == Open then Closed else s.listener)
    else s
  }

  /** A second `stop()` changes nothing. */
  lemma StopIdempotent(s: MonitorState)
    ensures StopState(StopState(s)) == StopState(s)
  {
  }

  /** What the monitor does, in order, as seen from outside. */
  datatype Effect = Replied(line: string) | SocketClosed | ServerStopped

  /** The effects of `stop()` in state `s`: the socket closes only on the flipping call. */
  function StopEffects(s: MonitorState): seq<Effect> {
    if s.running && s.listener == Open then [SocketClosed] else []
  }

  datatype StepResult = StepResult(state: MonitorState, reply: string, effects: seq<Effect>)

  /**
   * The handling of one delivered line: the reply, the new state, and the
   * effects in order (the reply first; on `shutdown` then the monitor's
   * `stop()`, then `server.stop()`).
   */
  function Step(s: MonitorState, line: Option<string>): (r: StepResult)
    ensures r.reply == Reply(Parse(line), s.serverStopped)
    ensures Parse(line) == Shutdown ==> !r.state.running && r.state.serverStopped
    ensures Parse(line) == Shutdown ==> r.state.listener == StopState(s).listener
    ensures Parse(line) != Shutdown ==> r.state == s
    ensures |r.effects| >= 1 && r.effects[0] == Replied(r.reply)
    ensures Parse(line) == Shutdown <==> r.effects[|r.effects| - 1] == ServerStopped
    ensures SocketClosed in r.effects <==> Parse(line) == Shutdown && s.running && s.listener == Open
  {
    var c := Parse(line);
    var reply := Reply(c, s.serverStopped);
    StepResult(if c == Shutdown then StopState(s).(serverStopped := true) else s,
               reply,
               [Replied(reply)] + if c == Shutdown then StopEffects(s) + [ServerStopped] else [])
  }

  /** What one accepted connection brings: a line (null at end of stream), or an I/O error. */
  datatype Connection = Delivered(line: Option<string>) | Broken

  predicate IsShutdown(c: Connection) {
    c.Delivered? && Parse(c.line) == Shutdown
  }

  /** How many of the connections delivered a line. */
  function DeliveredCount(conns: seq<Connection>): (n: nat)
    ensures n <= |conns|
  {
    if conns == [] then 0
    else DeliveredCount(conns[..|conns| - 1]) + (if conns[|conns| - 1].Delivered? then 1 else 0)
  }

  datatype SessionResult = SessionResult(state: MonitorState, replies: seq<string>, served: nat,
                                         effects: seq<Effect>)

  /** The outcome of a session whose first connections already gave `replies`, `served` and `effects`. */
  function After(replies: seq<string>, served: nat, effects: seq<Effect>, rest: SessionResult): SessionResult {
    SessionResult(rest.state, replies + rest.replies, served + rest.served, effects + rest.effects)
  }

  lemma AfterAfter(replies1: seq<string>, served1: nat, effects1: seq<Effect>,
                   replies2: seq<string>, served2: nat, effects2: seq<Effect>, rest: SessionResult)
    ensures After(replies1, served1, effects1, After(replies2, served2, effects2, rest))
         == After(replies1 + replies2, served1 + served2, effects1 + effects2, rest)
  {
    assert replies1 + (replies2 + rest.replies) == replies1 + replies2 + rest.replies;
    assert effects1 + (effects2 + rest.effects) == effects1 + effects2 + rest.effects;
  }

  lemma AppendAssoc<T>(a: seq<T>, b: seq<T>, c: seq<T>)
    ensures a + b + c == a + (b + c)
  {
  }

  /**
   * One turn of the loop, the block around one accepted connection: a
   * delivered line is handled and answered; an I/O error is swallowed.
   */
  function Serve(s: MonitorState, c: Connection): (r: SessionResult)
    ensures r.served == 1
    ensures c.Broken? ==> r == SessionResult(s, [], 1, [])
    ensures c.Delivered? ==> r.replies == [Step(s, c.line).reply] && r.state == Step(s, c.line).state
  {
    match c
    case Broken => SessionResult(s, [], 1, [])
    case Delivered(line) =>
      var step := Step(s, line);
      SessionResult(step.state, [step.reply], 1, step.effects)
  }

  /**
   * The `while (running.get())` loop over the connections that arrive: each
   * turn serves one connection, and the loop ends once `running` is false
   * (or no connection is left).
   */
  function Session(s: MonitorState, conns: seq<Connection>): (r: SessionResult)
    ensures r.served <= |conns|
    decreases |conns|
  {
    if !s.running || conns == [] then SessionResult(s, [], 0, [])
    else
      var first := Serve(s, conns[0]);
      After(first.replies, 1, first.effects, Session(first.state, conns[1..]))
  }

  /** Every handled connection that delivered a line got exactly one reply. */
  lemma {:induction false} SessionOneReplyEach(s: MonitorState, conns: seq<Connection>)
    ensures var r := Session(s, conns);
      |r.replies| == DeliveredCount(conns[..r.served])
    decreases |conns|
  {
    var r := Session(s, conns);
    if !s.running || conns == [] {
      assert conns[..r.served] == [];
    } else {
      var next := if conns[0].Delivered? then Step(s, conns[0].line).state else s;
      var rest := Session(next, conns[1..]);
      SessionOneReplyEach(next, conns[1..]);
      DeliveredCountCons(conns[0], conns[1..][..rest.served]);
      assert conns[..r.served] == [conns[0]] + conns[1..][..rest.served];
    }
  }

  lemma {:induction false} DeliveredCountCons(c: Connection, conns: seq<Connection>)
    ensures DeliveredCount([c] + conns) == (if c.Delivered? then 1 else 0) + DeliveredCount(conns)
    decreases |conns|
  {
    if conns == [] {
      assert [c] + conns == [c];
      assert [c][..0] == [];
    } else {
      var init := conns[..|conns| - 1];
      assert ([c] + conns)[..|[c] + conns| - 1] == [c] + init;
      DeliveredCountCons(c, init);
    }
  }

  /**
   * The loop serves connections until the first `shutdown`: while it runs,
   * no connection before the last served one was a shutdown; it stops
   * early only right after a shutdown; and `running` is false afterwards
   * exactly when it was false already or a shutdown was served.
   */
  lemma {:induction false} SessionStopsAtShutdown(s: MonitorState, conns: seq<Connection>)
    requires s.running
    ensures var r := Session(s, conns);
      && (forall i :: 0 <= i < r.served - 1 ==> !IsShutdown(conns[i]))
      && (r.served < |conns| ==> 0 < r.served && IsShutdown(conns[r.served - 1]))
      && (!r.state.running <==> exists i :: 0 <= i < r.served && IsShutdown(conns[i]))
    decreases |conns|
  {
    var r := Session(s, conns);
    if conns != [] {
      var next := if conns[0].Delivered? then Step(s, conns[0].line).state else s;
      var rest := Session(next, conns[1..]);
      assert r.state == rest.state && r.served == rest.served + 1;
      if IsShutdown(conns[0]) {
        assert rest.served == 0;
      } else {
        assert next == s;
        SessionStopsAtShutdown(s, conns[1..]);
        forall i | 0 <= i < r.served - 1
          ensures !IsShutdown(conns[i])
        {
          if i > 0 {
            assert conns[i] == conns[1..][i - 1];
          }
        }
        if !r.state.running {
          var j :| 0 <= j < rest.served && IsShutdown(conns[1..][j]);
          assert IsShutdown(conns[j + 1]);
        }
        if exists i :: 0 <= i < r.served && IsShutdown(conns[i]) {
          var i :| 0 <= i < r.served && IsShutdown(conns[i]);
          assert IsShutdown(conns[1..][i - 1]);
        }
      }
    }
  }

  /** Once `running` is false it never becomes true again, and nothing more is served. */
  lemma {:induction false} SessionStaysStopped(s: MonitorState, conns: seq<Connection>)
    requires !s.running
    ensures Session(s, conns) == SessionResult(s, [], 0, [])
  {
  }

  /** Neither `stop()` nor a handled line ever sets `running` back to true. */
  lemma StepNeverRestarts(s: MonitorState, line: Option<string>)
    ensures Step(s, line).state.running ==> s.running
    ensures s.serverStopped ==> Step(s, line).state.serverStopped
  {
  }

  /** The thread-pooled server, reduced to its `stopped` flag. */
  class PooledServer {
    var stopped: bool

    constructor ()
      ensures !stopped
    {
      stopped := false;
    }

    /** `isStopped()`. */
    function IsStopped(): (b: bool)
      reads this
      ensures b <==> stopped
    {
      stopped
    }

    /** `stop()`: its socket and pool shutdown are not part of this model. */
    method Stop()
      modifies this
      ensures stopped
    {
      stopped := true;
    }
  }

  class ShutdownMonitor {
    const port: int
    const server: PooledServer
    var listener: Listener
    var running: bool
    ghost var trace: seq<Effect>

    constructor (port: int, server: PooledServer)
      ensures this.port == port && this.server == server
      ensures listener == Unbound && running && trace == []
    {
      this.port := port;
      this.server := server;
      listener := Unbound;
      running := true;
      trace := [];
    }

    function State(): MonitorState
      reads this, server
    {
      MonitorState(running, listener, server.stopped)
    }

    /** `stop()`: compare-and-set on `running`; the winner closes the open socket. */
    method Stop()
      modifies this
      ensures MonitorState(running, listener, server.stopped) == StopState(old(State()))
      ensures trace == old(trace) + StopEffects(old(State()))
    {
      if running {
        running := false;
        if listener == Open {
          listener := Closed;
          trace := trace + [SocketClosed];
        }
      }
    }

    /**
     * The body of one loop iteration after the line was read: reply first;
     * on `shutdown`, then the monitor's own `stop()`, then `server.stop()`.
     */
    method Handle(line: Option<string>) returns (reply: string)
      modifies this, server
      ensures var r := Step(old(State()), line);
        State() == r.state && reply == r.reply && trace == old(trace) + r.effects
    {
      if Matches(ShutdownCommand, line) {
        reply := ShuttingDownReply;
        trace := trace + [Replied(reply)];
        Stop();
        server.Stop();
        trace := trace + [ServerStopped];
      } else if Matches(StatusCommand, line) {
        var isAlive := !server.IsStopped();
        reply := if isAlive then AliveReply else StoppedReply;
        trace := trace + [Replied(reply)];
      } else {
        reply := UnknownReply;
        trace := trace + [Replied(reply)];
      }
    }

    /** One accepted connection: the reply lines written back to it. */
    method ServeConnection(c: Connection) returns (lines: seq<string>)
      modifies this, server
      ensures var r := Serve(old(State()), c);
        State() == r.state && lines == r.replies && trace == old(trace) + r.effects
    {
      if c.Delivered? {
        var reply := Handle(c.line);
        lines := [reply];
      } else {
        lines := [];
      }
    }

    /**
     * `run()`: bind the listening socket (when that fails, nothing happens),
     * then serve connections while `running`; leaving the block closes the
     * socket.
     */
    method Run(bindSucceeds: bool, conns: seq<Connection>) returns (replies: seq<string>, served: nat)
      modifies this, server
      ensures !bindSucceeds ==> replies == [] && served == 0 && State() == old(State()) && trace == old(trace)
      ensures bindSucceeds ==>
        var r := Session(old(State()).(listener := Open), conns);
        && replies == r.replies && served == r.served
        && State() == r.state.(listener := Closed)
        && trace == old(trace) + r.effects
    {
      replies, served := [], 0;
      if !bindSucceeds {
        return;
      }
      listener := Open;
      ghost var st := State();
      ghost var t0 := trace;
      ghost var total := Session(st, conns);
      ghost var effects: seq<Effect> := [];
      while running && served < |conns|
        invariant served <= |conns| && State() == st && trace == t0 + effects
        invariant After(replies, served, effects, Session(st, conns[served..])) == total
        decreases |conns| - served
      {
        ghost var first := Serve(st, conns[served]);
        assert conns[served..][1..] == conns[served + 1..];
        var lines := ServeConnection(conns[served]);
        AfterAfter(replies, served, effects, lines, 1, first.effects, Session(first.state, conns[served + 1..]));
        AppendAssoc(t0, effects, first.effects);
        replies := replies + lines;
        effects := effects + first.effects;
        st := first.state;
        served := served + 1;
      }
      assert Session(st, conns[served..]) == SessionResult(st, [], 0, []);
      listener := Closed;
    }
  }
}
