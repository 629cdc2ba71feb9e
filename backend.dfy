/**
 * The robot backend: a single `SystemState` record mutated by the command
 * endpoint and by the serial manager task, whose every iteration either
 * plays the canned MOCK states (cycling every 20 iterations and appending
 * each state's log lines unless they already sit among the last five log
 * entries) or reports an offline LIVE frame; and the connection manager's
 * list of open sockets. The log is append-only: nothing ever removes a line.
 */
module Backend {
  import opened Text
  import opened Wrappers

  /** `Command(action: str, value: str = None)`. */
  datatype Command = Command(action: string, value: Option<string>)

  /** `{"result": "success", "action": ...}`. */
  datatype Response = Response(result: string, action: string)

  /** Python's `str(value)` inside an f-string: a missing value prints `None`. */
  function ShowValue(v: Option<string>): string
  {
    match v
    case Some(s) => s
    case None => "None"
  }

  /** The single line `send_command` appends for `cmd`, if any. */
  function CommandLine(cmd: Command): (r: Option<string>)
    ensures r.None? <==> cmd.action !in {"CMD_MODE", "CMD_MOVE", "CMD_TERMINATE"}
  {
    if cmd.action == "CMD_MODE" then Some("[SYS] MODE_SWITCH: " + ShowValue(cmd.value))
    else if cmd.action == "CMD_MOVE" then Some("[COM] MOVE: " + ShowValue(cmd.value))
    else if cmd.action == "CMD_TERMINATE" then Some("[CRT] EMERGENCY_STOP_ACTIVATED")
    else None
  }

  /** The mode after `send_command`; `None` is Python's `None`. */
  function CommandMode(mode: Option<string>, cmd: Command): Option<string>
  {
    if cmd.action == "CMD_MODE" then cmd.value
    else if cmd.action == "CMD_TERMINATE" then Some("HALT")
    else mode
  }

  /** The log after `send_command`. */
  function CommandLogs(logs: seq<string>, cmd: Command): seq<string>
  {
    match CommandLine(cmd)
    case Some(line) => logs + [line]
    case None => logs
  }

  /**
   * The four dispatch cases: a mode switch takes the command's value and
   * logs it, a move logs the direction and keeps the mode, terminate halts
   * and logs the emergency stop, and any other action changes nothing.
   * Every case keeps the old log as a prefix and adds at most one line.
   */
  lemma DispatchCases(mode: Option<string>, logs: seq<string>, cmd: Command)
    ensures cmd.action == "CMD_MODE" ==>
      CommandMode(mode, cmd) == cmd.value && CommandLogs(logs, cmd) == logs + ["[SYS] MODE_SWITCH: " + ShowValue(cmd.value)]
    ensures cmd.action == "CMD_MOVE" ==>
      CommandMode(mode, cmd) == mode && CommandLogs(logs, cmd) == logs + ["[COM] MOVE: " + ShowValue(cmd.value)]
    ensures cmd.action == "CMD_TERMINATE" ==>
      CommandMode(mode, cmd) == Some("HALT") && CommandLogs(logs, cmd) == logs + ["[CRT] EMERGENCY_STOP_ACTIVATED"]
    ensures cmd.action !in {"CMD_MODE", "CMD_MOVE", "CMD_TERMINATE"} ==>
      CommandMode(mode, cmd) == mode && CommandLogs(logs, cmd) == logs
    ensures logs <= CommandLogs(logs, cmd) && |CommandLogs(logs, cmd)| <= |logs| + 1
  {
  }

  /** One canned MOCK state: `MOCK_DATA[key]`. */
  datatype MockEntry = MockEntry(key: string, temp: real, dist: int, logs: seq<string>)

  /** `MOCK_DATA` in its key order. */
  const MockData: seq<MockEntry> := [
    MockEntry("PATROL", 48.5, 340, ["[SYS] PATROL_ACTIVE", "[NAV] PATH_OPTIMIZED"]),
    MockEntry("ALARM", 62.1, 45, ["[CRT] OBSTACLE_DETECTED", "[CRT] EMERGENCY_STOP"]),
    MockEntry("DOCKING", 42.0, 120, ["[SYS] DOCKING_INIT", "[NAV] ALIGNING_BEACON"])
  ]

  /** Iterations spent in each MOCK state. */
  const Dwell: nat := 20

  /** `(counter // 20) % len(mock_keys)`. */
  function MockIndex(counter: nat): (k: nat)
    ensures k < |MockData|
  {
    (counter / Dwell) % |MockData|
  }

  /**
   * Canned lines are considered exactly on the iterations where the MOCK
   * state changes (and on the very first one): `counter % 20 == 0` holds
   * iff the state index differs from the previous iteration's.
   */
  lemma MockIndexChanges(counter: nat)
    requires counter > 0
    ensures counter % Dwell == 0 <==> MockIndex(counter) != MockIndex(counter - 1)
  {
    var q := (counter - 1) / Dwell;
    if counter % Dwell == 0 {
      assert counter / Dwell == q + 1;
    } else {
      assert counter / Dwell == q;
    }
  }

  /** The MOCK states cycle with period 60 iterations. */
  lemma MockIndexPeriod(counter: nat)
    ensures MockIndex(counter + 3 * Dwell) == MockIndex(counter)
    ensures MockIndex(counter) == 0 <==> counter % (3 * Dwell) < Dwell
  {
    var q, r := counter / Dwell, counter % Dwell;
    DivByDwell(counter + 3 * Dwell, q + 3, r);
    DivByThree(q + 3, q / 3 + 1, q % 3);
    var q60, r60 := counter / (3 * Dwell), counter % (3 * Dwell);
    DivByDwell(counter, 3 * q60 + r60 / Dwell, r60 % Dwell);
    DivByThree(3 * q60 + r60 / Dwell, q60, r60 / Dwell);
  }

  /** Division by the dwell time has one quotient and one remainder. */
  lemma DivByDwell(n: int, q: int, r: int)
    requires 0 <= r < Dwell && n == q * Dwell + r
    ensures n / Dwell == q && n % Dwell == r
  {
  }

  /** Division by the number of MOCK states has one quotient and one remainder. */
  lemma DivByThree(n: int, q: int, r: int)
    requires 0 <= r < 3 && n == q * 3 + r
    ensures n / 3 == q && n % 3 == r
  {
  }

  /**
   * `for log in lines: if log not in state.logs[-5:]: state.logs.append(log)`:
   * each line is checked against the last five entries of the log as it
   * stands at that point, including lines appended just before.
   */
  function DedupAppend(logs: seq<string>, lines: seq<string>): seq<string>
  {
    if lines == [] then logs
    else
      var before := DedupAppend(logs, lines[..|lines| - 1]);
      var x := lines[|lines| - 1];
      if x in Last(before, 5) then before else before + [x]
  }

  /**
   * The deduplicating append keeps the old log as a prefix, adds only lines
   * from `lines` and at most one per line, and afterwards every line of
   * `lines` is present in the log.
   */
  lemma {:induction false} DedupAppendSpec(logs: seq<string>, lines: seq<string>)
    ensures logs <= DedupAppend(logs, lines)
    ensures |DedupAppend(logs, lines)| <= |logs| + |lines|
    ensures forall k :: |logs| <= k < |DedupAppend(logs, lines)| ==> DedupAppend(logs, lines)[k] in lines
    ensures forall x :: x in lines ==> x in DedupAppend(logs, lines)
  {
    DedupAppendGrows(logs, lines);
    DedupAppendCovers(logs, lines);
  }

  /** Growth: a prefix-preserving append of at most one entry per line, each from `lines`. */
  lemma {:induction false} DedupAppendGrows(logs: seq<string>, lines: seq<string>)
    ensures logs <= DedupAppend(logs, lines)
    ensures |DedupAppend(logs, lines)| <= |logs| + |lines|
    ensures forall k :: |logs| <= k < |DedupAppend(logs, lines)| ==> DedupAppend(logs, lines)[k] in lines
  {
    if lines != [] {
      var init, x := lines[..|lines| - 1], lines[|lines| - 1];
      DedupAppendGrows(logs, init);
      var before := DedupAppend(logs, init);
      var after := DedupAppend(logs, lines);
      assert after == if x in Last(before, 5) then before else before + [x];
      assert forall y :: y in init ==> y in lines;
      forall k | |logs| <= k < |after|
        ensures after[k] in lines
      {
        if k < |before| {
          assert after[k] == before[k];
        } else {
          assert after[k] == x;
        }
      }
    }
  }

  /** Coverage: afterwards every line is somewhere in the log. */
  lemma {:induction false} DedupAppendCovers(logs: seq<string>, lines: seq<string>)
    ensures forall x :: x in lines ==> x in DedupAppend(logs, lines)
  {
    if lines != [] {
      var init, x := lines[..|lines| - 1], lines[|lines| - 1];
      DedupAppendCovers(logs, init);
      DedupAppendGrows(logs, lines);
      var before := DedupAppend(logs, init);
      var after := DedupAppend(logs, lines);
      assert after == if x in Last(before, 5) then before else before + [x];
      assert before <= after;
      assert lines == init + [x];
      if x in Last(before, 5) {
        assert before == before[..|before| - |Last(before, 5)|] + Last(before, 5);
        assert x in before;
      }
      forall y | y in lines
        ensures y in after
      {
        if y != x {
          assert y in init;
          assert y in before;
        }
      }
    }
  }

  /**
   * A line absent from the last five entries is always appended:
   * deduplication only suppresses repeats of recent entries.
   */
  lemma DedupAppendsFresh(logs: seq<string>, x: string)
    requires x !in Last(logs, 5)
    ensures DedupAppend(logs, [x]) == logs + [x]
  {
    assert [x][..0] == [];
  }

  /** The loop of `serial_manager_task` that appends the canned lines. */
  method AppendCanned(logs: seq<string>, lines: seq<string>) returns (newLogs: seq<string>)
    ensures newLogs == DedupAppend(logs, lines)
  {
    newLogs := logs;
    var j := 0;
    while j < |lines|
      invariant 0 <= j <= |lines|
      invariant newLogs == DedupAppend(logs, lines[..j])
    {
      assert lines[..j + 1][..j] == lines[..j];
      var recent := Last(newLogs, 5);
      if lines[j] !in recent {
        newLogs := newLogs + [lines[j]];
      }
      j := j + 1;
    }
    assert lines[..j] == lines;
  }

  /** The broadcast `cpu_temp`: the placeholder `"--"` or a reading. */
  datatype Temp = Placeholder(text: string) | Reading(value: real)

  /** One broadcast telemetry frame (the `uptime` field is not modelled). */
  datatype Frame = Frame(runMode: string, cpuTemp: Temp, ultraDist: int, mode: Option<string>,
                         esp32Status: string, logs: seq<string>)

  /** The frame of a LIVE iteration: offline values and the last 5 log lines. */
  function LiveFrame(runMode: string, logs: seq<string>): (f: Frame)
    ensures |f.logs| == (if |logs| < 5 then |logs| else 5) && logs == logs[..|logs| - |f.logs|] + f.logs
    ensures f.cpuTemp == Placeholder("--") && f.ultraDist == 0 && f.mode == Some("OFFLINE / SEARCHING")
  {
    Frame(runMode, Placeholder("--"), 0, Some("OFFLINE / SEARCHING"), "SEARCHING_SERIAL...", Last(logs, 5))
  }

  /** `SystemState`: the one record the backend keeps. */
  class SystemState {
    var cpuTemp: real
    var ultraDist: int
    /** `None` after a mode switch that carried no value. */
    var mode: Option<string>
    const runMode: string
    var connectedEsp32: bool
    var logs: seq<string>

    /** `SystemState()` with `RUN_MODE` read from the environment. */
    constructor (runMode: string)
      ensures this.runMode == runMode
      ensures cpuTemp == 0.0 && ultraDist == 0 && mode == Some("INITIALIZING") && !connectedEsp32
      ensures logs == ["[SYS] BOOT_SEQUENCE_INIT (MODE: " + runMode + ")"]
    {
      this.runMode := runMode;
      cpuTemp, ultraDist, mode, connectedEsp32 := 0.0, 0, Some("INITIALIZING"), false;
      logs := ["[SYS] BOOT_SEQUENCE_INIT (MODE: " + runMode + ")"];
    }

    /** `send_command`: always answers success with the action echoed. */
    method SendCommand(cmd: Command) returns (r: Response)
      modifies this`mode, this`logs
      ensures r == Response("success", cmd.action)
      ensures mode == CommandMode(old(mode), cmd)
      ensures logs == CommandLogs(old(logs), cmd)
    {
      if cmd.action == "CMD_MODE" {
        mode := cmd.value;
        logs := logs + ["[SYS] MODE_SWITCH: " + ShowValue(cmd.value)];
      } else if cmd.action == "CMD_MOVE" {
        logs := logs + ["[COM] MOVE: " + ShowValue(cmd.value)];
      } else if cmd.action == "CMD_TERMINATE" {
        mode := Some("HALT");
        logs := logs + ["[CRT] EMERGENCY_STOP_ACTIVATED"];
      }
      r := Response("success", cmd.action);
    }

    /** The lifespan start-up hook's log line. */
    method BootComplete()
      modifies this`logs
      ensures logs == old(logs) + ["[SYS] BOOT_SEQUENCE_COMPLETE"]
    {
      logs := logs + ["[SYS] BOOT_SEQUENCE_COMPLETE"];
    }
  }

  /** `serial_manager_task`: the shared state and the local `counter`. */
  class SerialManager {
    const state: SystemState
    var counter: nat

    /** The serial manager's start: it logs the link and starts counting at 0. */
    constructor (state: SystemState)
      modifies state`logs
      ensures this.state == state && counter == 0
      ensures state.logs == old(state.logs) + ["[COM] LINK_ESTABLISHED: " + state.runMode]
    {
      this.state := state;
      counter := 0;
      state.logs := state.logs + ["[COM] LINK_ESTABLISHED: " + state.runMode];
    }

    /**
     * One iteration of the `while True` loop and the frame it broadcasts.
     * `distJitter` is `random.randint(-5, 5)` and `tempNoise` is
     * `random.random()`.
     */
    method Iterate(distJitter: int, tempNoise: real) returns (frame: Frame)
      requires -5 <= distJitter <= 5 && 0.0 <= tempNoise < 1.0
      modifies this`counter, state`connectedEsp32, state`ultraDist, state`cpuTemp, state`mode, state`logs
      ensures state.runMode == "MOCK" ==> var e := MockData[MockIndex(old(counter))];
        && state.connectedEsp32
        && state.ultraDist == e.dist + distJitter
        && e.dist - 5 <= state.ultraDist <= e.dist + 5
        && state.cpuTemp == e.temp + tempNoise
        && e.temp <= state.cpuTemp < e.temp + 1.0
        && state.mode == Some(e.key)
        && state.logs == (if old(counter) % Dwell == 0 then DedupAppend(old(state.logs), e.logs) else old(state.logs))
        && counter == old(counter) + 1
        && frame == Frame("MOCK", Reading(state.cpuTemp), state.ultraDist, state.mode, "MOCK_ACTIVE", Last(state.logs, 12))
      ensures state.runMode != "MOCK" ==>
        && frame == LiveFrame(state.runMode, state.logs)
        && counter == old(counter)
        && unchanged(state)
      ensures old(state.logs) <= state.logs
    {
      if state.runMode == "MOCK" {
        var e := MockData[MockIndex(counter)];
        state.connectedEsp32 := true;
        state.ultraDist := e.dist + distJitter;
        state.cpuTemp := e.temp + tempNoise;
        state.mode := Some(e.key);
        if counter % Dwell == 0 {
          DedupAppendSpec(state.logs, e.logs);
          state.logs := AppendCanned(state.logs, e.logs);
        }
        frame := Frame(state.runMode, Reading(state.cpuTemp), state.ultraDist, state.mode, "MOCK_ACTIVE", Last(state.logs, 12));
        counter := counter + 1;
      } else {
        frame := LiveFrame(state.runMode, state.logs);
      }
    }
  }

  /**
   * Application start-up: the state is created with the boot line, the
   * lifespan hook logs completion before the serial task first runs, and
   * the serial manager then logs the link.
   */
  method Startup(runMode: string) returns (logs: seq<string>, mode: Option<string>, connected: bool)
    ensures logs == ["[SYS] BOOT_SEQUENCE_INIT (MODE: " + runMode + ")",
                     "[SYS] BOOT_SEQUENCE_COMPLETE",
                     "[COM] LINK_ESTABLISHED: " + runMode]
    ensures mode == Some("INITIALIZING") && !connected
  {
    var state := new SystemState(runMode);
    state.BootComplete();
    var task := new SerialManager(state);
    logs, mode, connected := state.logs, state.mode, state.connectedEsp32;
  }

  /** `list.remove(x)`: drops the first occurrence of `x`. */
  function RemoveFirst<T(==)>(s: seq<T>, x: T): seq<T>
  {
    if s == [] then []
    else if s[0] == x then s[1..]
    else [s[0]] + RemoveFirst(s[1..], x)
  }

  /**
   * Removing an element that is present takes exactly one copy of it out
   * and keeps the other elements in order: everything before its first
   * occurrence and everything after it.
   */
  lemma {:induction false} RemoveFirstSpec<T>(s: seq<T>, x: T, i: nat)
    requires i < |s| && s[i] == x && x !in s[..i]
    ensures RemoveFirst(s, x) == s[..i] + s[i + 1..]
    ensures multiset(RemoveFirst(s, x)) == multiset(s) - multiset{x}
  {
    RemoveFirstAt(s, x, i);
    MultisetWithout(s, i);
  }

  lemma {:induction false} RemoveFirstAt<T>(s: seq<T>, x: T, i: nat)
    requires i < |s| && s[i] == x && x !in s[..i]
    ensures RemoveFirst(s, x) == s[..i] + s[i + 1..]
  {
    if i == 0 {
      assert s[..0] == [];
    } else {
      assert s[0] != x by { assert s[0] == s[..i][0]; }
      var t := s[1..];
      assert t[..i - 1] == s[1..i];
      assert x !in t[..i - 1];
      RemoveFirstAt(t, x, i - 1);
      assert t[i..] == s[i + 1..];
      assert s[..i] == [s[0]] + t[..i - 1];
    }
  }

  lemma MultisetWithout<T>(s: seq<T>, i: nat)
    requires i < |s|
    ensures multiset(s[..i] + s[i + 1..]) == multiset(s) - multiset{s[i]}
  {
    assert s == s[..i] + [s[i]] + s[i + 1..];
  }


  /** An open socket, identified by an opaque handle. */
  type Socket = nat

  /** `ConnectionManager`: the list of accepted sockets. */
  class ConnectionManager {
    var active: seq<Socket>

    constructor ()
      ensures active == []
    {
      active := [];
    }

    /** `connect`: the socket is accepted and appended. */
    method Connect(ws: Socket)
      modifies this
      ensures active == old(active) + [ws]
    {
      active := active + [ws];
    }

    /**
     * `disconnect`: removes the first occurrence; `ok` is false where Python
     * would raise `ValueError` because the socket is not in the list.
     */
    method Disconnect(ws: Socket) returns (ok: bool)
      modifies this
      ensures ok <==> ws in old(active)
      ensures ok ==> active == RemoveFirst(old(active), ws)
      ensures ok ==> multiset(active) == multiset(old(active)) - multiset{ws}
      ensures !ok ==> active == old(active)
    {
      var i := 0;
      while i < |active| && active[i] != ws
        invariant 0 <= i <= |active|
        invariant ws !in active[..i]
      {
        assert active[..i + 1] == active[..i] + [active[i]];
        i := i + 1;
      }
      ok := i < |active|;
      if ok {
        RemoveFirstSpec(active, ws, i);
        active := active[..i] + active[i + 1..];
      } else {
        assert active[..i] == active;
      }
    }
  }
}
