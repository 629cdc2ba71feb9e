/**
 * The mock telemetry page (`/v1-rg/mock`): every 500 ms a tick picks one of
 * three canned operating states round-robin from the time elapsed since the
 * page was mounted (5000 ms per state), appends that state's three canned
 * log lines once per change of state to a log capped at 20 lines, and
 * reports the state's mode with jittered distance and temperature readings
 * and the elapsed time as `HH:MM:SS`.
 */
module MockTelemetry {
  import opened Text
  import opened BoundedLog
  import opened IsoClock

  /** A canned operating state: mode label, base readings, log lines. */
  datatype MockState = MockState(mode: string, dist: int, temp: int, logs: seq<string>)

  const MockStates: seq<MockState> := [
    MockState("PATROL_ACTIVE", 350, 48, ["[SYS] PATROL_UNIT_01_ENGAGED", "[NAV] CALCULATING_GRID_8", "[SNR] OBSTACLE_CLEAR"]),
    MockState("EMERGENCY_HALT", 42, 65, ["[CRT] COLLISION_AVOIDANCE", "[SYS] EMERGENCY_STOP", "[SNR] DISTANCE_ALERT"]),
    MockState("DOCKING_STN", 110, 41, ["[NAV] DOCKING_ALIGNMENT", "[SYS] POWER_SYNC_READY", "[COM] DOCK_HANDSHAKE"])
  ]

  const LogCap: nat := 20
  const DwellMs: nat := 5000

  /** The telemetry record shown by the page. */
  datatype Telemetry = Telemetry(cpu_temp: int, uptime: string, ultra_dist: int, mode: string, logs: seq<string>)

  const InitialTelemetry := Telemetry(42, "00:00:00", 250, "BOOTING", [])

  /** `Math.floor(elapsed / 5000) % 3` for a non-negative elapsed time. */
  function StateIndex(elapsed: nat): (k: nat)
    ensures k < |MockStates|
  {
    (elapsed / DwellMs) % 3
  }

  /** `Math.floor(random * n)`: a random draw in [0, 1) scaled to 0 .. n-1. */
  function Jitter(random: real, n: nat): (j: int)
    requires 0.0 <= random < 1.0
    ensures n > 0 ==> 0 <= j < n
    ensures n == 0 ==> j == 0
  {
    assert 0.0 <= random * n as real <= n as real;
    assert n > 0 ==> random * n as real < n as real;
    (random * n as real).Floor
  }

  /**
   * The log after a tick that selected state `k`, given the state index the
   * previous appending tick recorded: the canned lines are pushed only on a
   * change of state.
   */
  function NextLogs(logs: seq<string>, lastIndex: int, k: nat): seq<string>
    requires k < |MockStates|
  {
    if k != lastIndex then PushAll(logs, MockStates[k].logs, LogCap) else logs
  }

  /**
   * A tick keeps the log within its cap; on a change of state the newest
   * three lines are that state's canned lines in order, and otherwise the
   * log is untouched.
   */
  lemma NextLogsSpec(logs: seq<string>, lastIndex: int, k: nat)
    requires k < |MockStates| && |logs| <= LogCap
    ensures |NextLogs(logs, lastIndex, k)| <= LogCap
    ensures k != lastIndex ==> var r := NextLogs(logs, lastIndex, k);
      |r| >= 3 && r[|r| - 3..] == MockStates[k].logs
    ensures k != lastIndex ==> NextLogs(logs, lastIndex, k) == Last(logs + MockStates[k].logs, LogCap)
    ensures k == lastIndex ==> NextLogs(logs, lastIndex, k) == logs
  {
    if k != lastIndex {
      PushAllBounded(logs, MockStates[k].logs, LogCap);
      PushAllIsWindow(logs, MockStates[k].logs, LogCap);
    }
  }

  /**
   * The state changes only at multiples of the dwell time: two instants in
   * the same 5000 ms slot select the same state, consecutive slots select
   * consecutive states, and the cycle repeats every 15000 ms.
   */
  lemma StateIndexSchedule(e1: nat, e2: nat)
    ensures e1 / DwellMs == e2 / DwellMs ==> StateIndex(e1) == StateIndex(e2)
    ensures e2 / DwellMs == e1 / DwellMs + 1 ==> StateIndex(e2) == (StateIndex(e1) + 1) % 3
    ensures StateIndex(e1 + 3 * DwellMs) == StateIndex(e1)
  {
    assert (e1 + 3 * DwellMs) / DwellMs == e1 / DwellMs + 3;
  }

  /** The very first tick, whatever its time, appends the lines of its state. */
  lemma FirstTickAppends(elapsed: nat)
    ensures var k := StateIndex(elapsed);
      NextLogs([], -1, k) == MockStates[k].logs
  {
    var k := StateIndex(elapsed);
    var lines := MockStates[k].logs;
    assert |lines| == 3;
    PushAllIsWindow([], lines, LogCap);
    assert [] + lines == lines;
    assert Last(lines, LogCap) == lines;
  }

  /**
   * The `forEach` of a state change: push each canned line, shifting the
   * oldest entry off whenever the log grows past its cap.
   */
  method AppendLines(logs: seq<string>, lines: seq<string>) returns (newLogs: seq<string>)
    ensures newLogs == PushAll(logs, lines, LogCap)
  {
    newLogs := logs;
    var j := 0;
    while j < |lines|
      invariant 0 <= j <= |lines|
      invariant newLogs == PushAll(logs, lines[..j], LogCap)
    {
      assert lines[..j + 1][..j] == lines[..j];
      newLogs := newLogs + [lines[j]];
      if |newLogs| > LogCap {
        newLogs := newLogs[1..];
      }
      j := j + 1;
    }
    assert lines[..j] == lines;
  }

  /** The log update of one tick: the canned lines are appended only on a change of state. */
  method TickLogs(logs: seq<string>, lastIndex: int, k: nat) returns (newLogs: seq<string>)
    requires k < |MockStates| && |logs| <= LogCap
    ensures newLogs == NextLogs(logs, lastIndex, k)
    ensures |newLogs| <= LogCap
  {
    NextLogsSpec(logs, lastIndex, k);
    newLogs := logs;
    if k != lastIndex {
      newLogs := AppendLines(logs, MockStates[k].logs);
    }
  }

  /** The page's simulation state: the telemetry record and `lastStateIndexRef`. */
  class Simulator {
    var telemetry: Telemetry
    var lastStateIndex: int
    const startTime: int

    ghost predicate Valid()
      reads this
    {
      |telemetry.logs| <= LogCap && -1 <= lastStateIndex < |MockStates|
    }

    constructor (startTime: int)
      ensures Valid()
      ensures this.startTime == startTime
      ensures telemetry == InitialTelemetry && lastStateIndex == -1
    {
      this.startTime := startTime;
      telemetry := InitialTelemetry;
      lastStateIndex := -1;
    }

    /**
     * One interval callback at wall-clock time `now`, with the two draws of
     * `Math.random()` for the distance and temperature jitter.
     */
    method Tick(now: int, distRandom: real, tempRandom: real)
      requires Valid() && startTime <= now
      requires 0.0 <= distRandom < 1.0 && 0.0 <= tempRandom < 1.0
      modifies this`telemetry, this`lastStateIndex
      ensures Valid()
      ensures var k := StateIndex(now - startTime);
        && lastStateIndex == k
        && telemetry == Telemetry(
             MockStates[k].temp + Jitter(tempRandom, 5),
             TimeOfDay(now - startTime),
             MockStates[k].dist + Jitter(distRandom, 20),
             MockStates[k].mode,
             NextLogs(old(telemetry.logs), old(lastStateIndex), k))
    {
      var k := StateIndex(now - startTime);
      var s := MockStates[k];
      var newLogs := TickLogs(telemetry.logs, lastStateIndex, k);
      lastStateIndex := k;
      telemetry := Telemetry(
        s.temp + Jitter(tempRandom, 5),
        TimeOfDay(now - startTime),
        s.dist + Jitter(distRandom, 20),
        s.mode,
        newLogs);
    }
  }
}
