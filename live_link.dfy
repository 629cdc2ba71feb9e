/**
 * The live page (`/v1-rg/live`): a socket client whose open, message and
 * close callbacks drive a connection flag and the displayed telemetry
 * record, a reconnect timer scheduled on close, the WASD key table and the
 * buttons that post `{action, value}` commands, the glitch effect gated by
 * the connection flag, and the distance bar width.
 */
module LiveLink {
  import opened Text
  import opened Wrappers

  /** `cpu_temp: string | number`: the placeholder "--" or a reading. */
  datatype Temp = Placeholder(text: string) | Reading(value: real)

  datatype Telemetry = Telemetry(cpu_temp: Temp, uptime: string, ultra_dist: real, mode: string, logs: seq<string>)

  const InitialTelemetry := Telemetry(Placeholder("--"), "00:00:00", 0.0, "OFFLINE", [])

  const ReconnectDelayMs: nat := 2000
  const GlitchPulseMs: nat := 150

  /** The JSON body posted to the command endpoint. */
  datatype Command = Command(action: string, value: string)

  /** `sendCmd(action, value = "")`: the body always carries both fields. */
  function CommandBody(action: string, value: Option<string>): (c: Command)
    ensures c.action == action
    ensures c.value == (if value.Some? then value.value else "")
  {
    Command(action, value.GetOr(""))
  }

  /** The footer buttons: three mode switches and the terminate button. */
  function ModeButton(mode: string): (c: Command)
    ensures c.action == "CMD_MODE" && c.value == mode
  {
    CommandBody("CMD_MODE", Some(mode))
  }
  const TerminateButton: Command := CommandBody("CMD_TERMINATE", None)

  /** The key table `{ w: "FWD", s: "BWD", a: "LEFT", d: "RIGHT" }`. */
  function MoveFor(key: string): Option<string>
  {
    if key == "w" then Some("FWD")
    else if key == "s" then Some("BWD")
    else if key == "a" then Some("LEFT")
    else if key == "d" then Some("RIGHT")
    else None
  }

  /** `handleKeyDown`: the command a key press posts, if any. */
  function KeyCommand(key: string): Option<Command>
  {
    match MoveFor(LowerAscii(key))
    case Some(dir) => Some(CommandBody("CMD_MOVE", Some(dir)))
    case None => None
  }

  /**
   * Exactly the keys w, s, a and d, in either case, post a move command,
   * with the directions forward, backward, left and right; every other key
   * posts nothing.
   */
  lemma KeyTable(key: string)
    ensures KeyCommand(key).Some? <==> LowerAscii(key) in {"w", "s", "a", "d"}
    ensures KeyCommand(key).Some? ==> KeyCommand(key).value.action == "CMD_MOVE"
    ensures LowerAscii(key) == "w" ==> KeyCommand(key) == Some(Command("CMD_MOVE", "FWD"))
    ensures LowerAscii(key) == "s" ==> KeyCommand(key) == Some(Command("CMD_MOVE", "BWD"))
    ensures LowerAscii(key) == "a" ==> KeyCommand(key) == Some(Command("CMD_MOVE", "LEFT"))
    ensures LowerAscii(key) == "d" ==> KeyCommand(key) == Some(Command("CMD_MOVE", "RIGHT"))
  {
  }

  /** Upper-case letters select the same command as their lower-case keys. */
  lemma KeyCaseInsensitive()
    ensures KeyCommand("W") == KeyCommand("w") && KeyCommand("S") == KeyCommand("s")
    ensures KeyCommand("A") == KeyCommand("a") && KeyCommand("D") == KeyCommand("d")
  {
    assert LowerAscii("W") == "w";
    assert LowerAscii("S") == "s";
    assert LowerAscii("A") == "a";
    assert LowerAscii("D") == "d";
  }

  /** `Math.min(100, (ultra_dist / 500) * 100)`: the distance bar width in percent. */
  function ProgressWidth(dist: real): (w: real)
    ensures w <= 100.0
    ensures dist <= 500.0 ==> w == dist / 5.0
    ensures dist >= 500.0 ==> w == 100.0
  {
    var raw := dist / 500.0 * 100.0;
    if raw < 100.0 then raw else 100.0
  }

  /** The page's link state. */
  class Client {
    var connected: bool
    var triggerGlitch: bool
    var telemetry: Telemetry
    /** How many sockets `connectWS` has constructed (each assignment to `wsRef`). */
    var sockets: nat
    /** Delays of the reconnect timers scheduled and not yet fired, oldest first. */
    var reconnects: seq<nat>
    /** Pending timers that end a glitch pulse. */
    var glitchClears: nat
    /** Bodies posted to the command endpoint, oldest first. */
    var sent: seq<Command>
    /** Whether the socket in `wsRef` has been constructed and not yet closed. */
    var socketOpen: bool
    /** The value of `connected` the current run of the page's effect saw. */
    var effectConnected: bool
    /**
     * Whether the socket is opened by the effect keyed on `[connected]`, as
     * the page does, rather than by an effect run once on mount.
     */
    const socketInConnectedEffect: bool

    constructor (socketInConnectedEffect: bool)
      ensures this.socketInConnectedEffect == socketInConnectedEffect
      ensures !connected && !triggerGlitch && telemetry == InitialTelemetry
      ensures sockets == 0 && reconnects == [] && glitchClears == 0 && sent == []
      ensures !socketOpen && !effectConnected
    {
      this.socketInConnectedEffect := socketInConnectedEffect;
      connected, triggerGlitch := false, false;
      telemetry := InitialTelemetry;
      sockets, reconnects, glitchClears, sent := 0, [], 0, [];
      socketOpen, effectConnected := false, false;
    }

    /**
     * React runs the socket's effect again after a render exactly when its
     * dependency `connected` differs from the value its last run saw.
     */
    predicate RerunDue()
      reads this
    {
      socketInConnectedEffect && connected != effectConnected
    }

    /** The `glitch-active` class is applied iff disconnected or pulsing. */
    function GlitchActive(): bool
      reads this
    {
      !connected || triggerGlitch
    }

    /**
     * `connectWS`: `constructed` says whether `new WebSocket(..)` returned.
     * When it throws, the link is marked offline and no retry is scheduled.
     */
    method Connect(constructed: bool)
      modifies this`sockets, this`socketOpen, this`connected, this`telemetry
      ensures constructed ==> sockets == old(sockets) + 1 && socketOpen && connected == old(connected) && telemetry == old(telemetry)
      ensures !constructed ==> sockets == old(sockets) && socketOpen == old(socketOpen)
      ensures !constructed ==> !connected && telemetry == old(telemetry).(mode := "OFFLINE")
    {
      if constructed {
        sockets := sockets + 1;
        socketOpen := true;
      } else {
        connected := false;
        telemetry := telemetry.(mode := "OFFLINE");
      }
    }

    /** `ws.onopen`. */
    method OnOpen()
      modifies this`connected
      ensures connected
    {
      connected := true;
    }

    /** `ws.onmessage` with the parsed frame: the record is replaced whole. */
    method OnMessage(frame: Telemetry)
      modifies this`telemetry
      ensures telemetry == frame
    {
      telemetry := frame;
    }

    /**
     * `ws.onclose` of the socket in `wsRef`: disconnected, mode `LINK_LOST`,
     * one reconnect in 2000 ms.
     */
    method OnClose()
      modifies this`connected, this`telemetry, this`reconnects, this`socketOpen
      ensures !connected && !socketOpen
      ensures telemetry == old(telemetry).(mode := "LINK_LOST")
      ensures reconnects == old(reconnects) + [ReconnectDelayMs]
    {
      socketOpen := false;
      LinkLost();
    }

    /** The body of the `onclose` handler, whichever socket it was set on. */
    method LinkLost()
      modifies this`connected, this`telemetry, this`reconnects
      ensures !connected
      ensures telemetry == old(telemetry).(mode := "LINK_LOST")
      ensures reconnects == old(reconnects) + [ReconnectDelayMs]
    {
      connected := false;
      telemetry := telemetry.(mode := "LINK_LOST");
      reconnects := reconnects + [ReconnectDelayMs];
    }

    /**
     * The effect's re-run after `connected` changed: the cleanup closes the
     * socket in `wsRef`, the new run calls `connectWS`, and the closed
     * socket's close event then arrives and runs its `onclose` handler.
     * The new run closes over the current `connected`.
     */
    method EffectRerun(constructed: bool)
      requires RerunDue()
      modifies this`sockets, this`socketOpen, this`connected, this`telemetry, this`reconnects, this`effectConnected
      ensures effectConnected == old(connected)
      ensures sockets == old(sockets) + (if constructed then 1 else 0)
      ensures socketOpen == constructed
      ensures old(socketOpen) ==>
        && !connected && telemetry == old(telemetry).(mode := "LINK_LOST")
        && reconnects == old(reconnects) + [ReconnectDelayMs]
      ensures !old(socketOpen) && constructed ==>
        connected == old(connected) && telemetry == old(telemetry) && reconnects == old(reconnects)
      ensures !old(socketOpen) && !constructed ==>
        !connected && telemetry == old(telemetry).(mode := "OFFLINE") && reconnects == old(reconnects)
    {
      var closing := socketOpen;
      socketOpen := false;
      effectConnected := connected;
      Connect(constructed);
      if closing {
        LinkLost();
      }
    }

    /** The oldest reconnect timer fires and calls `connectWS` again. */
    method FireReconnect(constructed: bool) returns (fired: bool)
      modifies this`reconnects, this`sockets, this`socketOpen, this`connected, this`telemetry
      ensures fired == (old(reconnects) != [])
      ensures fired ==> reconnects == old(reconnects)[1..]
      ensures fired && constructed ==> sockets == old(sockets) + 1 && connected == old(connected) && telemetry == old(telemetry)
      ensures fired && !constructed ==> sockets == old(sockets) && !connected && telemetry == old(telemetry).(mode := "OFFLINE")
      ensures fired ==> socketOpen == (constructed || old(socketOpen))
      ensures !fired ==> reconnects == old(reconnects) && sockets == old(sockets) && socketOpen == old(socketOpen)
      ensures !fired ==> connected == old(connected) && telemetry == old(telemetry)
    {
      fired := reconnects != [];
      if fired {
        reconnects := reconnects[1..];
        Connect(constructed);
      }
    }

    /** `sendCmd`: posts the body; the request's outcome is not observed. */
    method SendCmd(action: string, value: Option<string>)
      modifies this`sent
      ensures sent == old(sent) + [CommandBody(action, value)]
    {
      sent := sent + [CommandBody(action, value)];
    }

    /** `handleKeyDown`: a table key posts its move, any other key nothing. */
    method KeyDown(key: string)
      modifies this`sent
      ensures KeyCommand(key).Some? ==> sent == old(sent) + [KeyCommand(key).value]
      ensures KeyCommand(key).None? ==> sent == old(sent)
    {
      var k := LowerAscii(key);
      var dir := MoveFor(k);
      if dir.Some? {
        SendCmd("CMD_MOVE", Some(dir.value));
      }
    }

    /**
     * The `connected` the glitch interval tests: the value its own effect
     * run closed over. With the socket in the `[connected]` effect that is
     * the value the last run saw; with the socket opened on mount, the
     * interval stays in an effect keyed on `connected`, which re-runs with
     * every change, so it sees the current value.
     */
    function SeenConnected(): bool
      reads this
    {
      if socketInConnectedEffect then effectConnected else connected
    }

    /**
     * The 2500 ms glitch interval: a 150 ms pulse, only while the value of
     * `connected` it closed over is false.
     */
    method GlitchTick()
      modifies this`triggerGlitch, this`glitchClears
      ensures SeenConnected() ==> triggerGlitch == old(triggerGlitch) && glitchClears == old(glitchClears)
      ensures !SeenConnected() ==> triggerGlitch && glitchClears == old(glitchClears) + 1
      ensures !RerunDue() ==> (SeenConnected() <==> connected)
    {
      if !SeenConnected() {
        triggerGlitch := true;
        glitchClears := glitchClears + 1;
      }
    }

    /** The 150 ms timeout that ends a glitch pulse. */
    method GlitchClear() returns (fired: bool)
      modifies this`triggerGlitch, this`glitchClears
      ensures fired == (old(glitchClears) > 0)
      ensures fired ==> !triggerGlitch && glitchClears == old(glitchClears) - 1
      ensures !fired ==> triggerGlitch == old(triggerGlitch) && glitchClears == 0
    {
      fired := glitchClears > 0;
      if fired {
        triggerGlitch := false;
        glitchClears := glitchClears - 1;
      }
    }
  }

  /**
   * The state between two open cycles of the page as written: the effect
   * keyed on `[connected]` last ran while disconnected and the socket it
   * constructed is in `wsRef`, still connecting.
   */
  predicate Connecting(c: Client)
    reads c
  {
    c.socketInConnectedEffect && c.socketOpen && !c.connected && !c.effectConnected
  }

  /**
   * One open cycle of the page as written: the connecting socket opens,
   * `connected` becomes true and the effect re-runs, closing that socket;
   * its close event makes `connected` false again, so the effect re-runs a
   * second time and closes the socket it had just constructed. The cycle
   * ends where it began, with a third socket connecting, two more sockets
   * constructed and two more reconnects pending.
   */
  method OpenCycle(c: Client)
    requires Connecting(c)
    modifies c`sockets, c`socketOpen, c`connected, c`telemetry, c`reconnects, c`effectConnected
    ensures Connecting(c)
    ensures c.sockets == old(c.sockets) + 2
    ensures c.reconnects == old(c.reconnects) + [ReconnectDelayMs, ReconnectDelayMs]
    ensures c.telemetry == old(c.telemetry).(mode := "LINK_LOST")
  {
    c.OnOpen();
    c.EffectRerun(true);
    c.EffectRerun(true);
  }

  /**
   * The page as written, mounted and then through its first open cycle:
   * the link is disconnected with mode `LINK_LOST`, three sockets have been
   * constructed, two reconnect timers are pending, and the third socket is
   * still connecting, so its own open starts the cycle again.
   */
  method OpenAsWritten() returns (connected: bool, mode: string, sockets: nat, pending: seq<nat>, connecting: bool)
    ensures !connected && mode == "LINK_LOST" && sockets == 3
    ensures pending == [ReconnectDelayMs, ReconnectDelayMs]
    ensures connecting
  {
    var c := new Client(true);
    c.Connect(true);
    OpenCycle(c);
    connected, mode, sockets, pending, connecting := c.connected, c.telemetry.mode, c.sockets, c.reconnects, Connecting(c);
  }

  /**
   * The page as written while the server accepts every socket: after the
   * mount and `n` opens the page has constructed `2n + 1` sockets and
   * scheduled `2n` reconnects, and it is again disconnected with a socket
   * connecting. It never stays connected.
   */
  method OpenRepeats(n: nat) returns (connected: bool, sockets: nat, pending: seq<nat>, connecting: bool)
    ensures !connected && connecting
    ensures sockets == 2 * n + 1
    ensures |pending| == 2 * n && forall k :: 0 <= k < |pending| ==> pending[k] == ReconnectDelayMs
  {
    var c := new Client(true);
    c.Connect(true);
    var i := 0;
    while i < n
      invariant 0 <= i <= n
      invariant Connecting(c)
      invariant c.sockets == 2 * i + 1
      invariant |c.reconnects| == 2 * i
      invariant forall k :: 0 <= k < |c.reconnects| ==> c.reconnects[k] == ReconnectDelayMs
    {
      OpenCycle(c);
      i := i + 1;
    }
    connected, sockets, pending, connecting := c.connected, c.sockets, c.reconnects, Connecting(c);
  }

  /**
   * With the socket opened by an effect run once on mount, opening leaves
   * the link connected with one socket, no re-run due and nothing pending.
   */
  method OpenOnMount() returns (connected: bool, sockets: nat, pending: seq<nat>, settled: bool)
    ensures connected && sockets == 1 && pending == [] && settled
  {
    var c := new Client(false);
    c.Connect(true);
    c.OnOpen();
    connected, sockets, pending, settled := c.connected, c.sockets, c.reconnects, !c.RerunDue();
  }

  /**
   * A session that connects, opens, receives one frame and then loses the
   * link, with the socket opened once on mount so that no event re-runs
   * it: the frame is shown whole except for the `LINK_LOST` mode, the
   * page is disconnected with the glitch effect on, and exactly one
   * reconnect is pending, 2000 ms out.
   */
  method LinkLostAfterFrame(frame: Telemetry) returns (shown: Telemetry, connected: bool, glitch: bool, pending: seq<nat>)
    ensures shown == frame.(mode := "LINK_LOST")
    ensures shown.logs == frame.logs && shown.ultra_dist == frame.ultra_dist && shown.cpu_temp == frame.cpu_temp
    ensures !connected && glitch && pending == [ReconnectDelayMs]
  {
    var c := new Client(false);
    c.Connect(true);
    c.OnOpen();
    c.OnMessage(frame);
    c.OnClose();
    shown, connected, glitch, pending := c.telemetry, c.connected, c.GlitchActive(), c.reconnects;
  }

  /**
   * A socket that cannot even be constructed leaves the page offline with
   * nothing scheduled: no retry follows a construction failure, and as
   * `connected` stays false the effect is not re-run.
   */
  method ConstructionFailure() returns (mode: string, connected: bool, pending: seq<nat>, settled: bool)
    ensures mode == "OFFLINE" && !connected && pending == [] && settled
  {
    var c := new Client(true);
    c.Connect(false);
    mode, connected, pending, settled := c.telemetry.mode, c.connected, c.reconnects, !c.RerunDue();
  }

  /** The footer buttons post the three modes and the terminate command. */
  lemma FooterButtons()
    ensures ModeButton("MANUAL") == Command("CMD_MODE", "MANUAL")
    ensures ModeButton("AUTO") == Command("CMD_MODE", "AUTO")
    ensures ModeButton("DOCKING") == Command("CMD_MODE", "DOCKING")
    ensures TerminateButton == Command("CMD_TERMINATE", "")
  {
  }
}
