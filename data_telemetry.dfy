/**
 * The data page (`/v1-rg/data`): every 100 ms a tick turns a distance and a
 * temperature reading into non-negative integer samples, appends a
 * `TELEMETRY_SYNC` line to a log capped at 30 lines, and slides both
 * 50-sample sparkline histories by one, rescaling each sample into chart
 * coordinates with `mapValue`. `getSparklinePaths` turns a history into SVG
 * path strings.
 */
module DataTelemetry {
  import opened Text
  import opened BoundedLog
  import opened IsoClock

  const LogCap: nat := 30
  const HistoryLen: nat := 50

  /** The telemetry record of the data page; `volt` is fixed at mount. */
  datatype Telemetry = Telemetry(cpu_temp: int, uptime: string, ultra_dist: int, volt: string, logs: seq<string>)

  const InitialTelemetry := Telemetry(45, "00:00:00", 120, "11.1V", [])

  /** `Array(50).fill(20)`. */
  const InitialHistory: seq<real> := seq(HistoryLen, _ => 20.0)

  /** `Math.floor(Math.max(0, reading))`: the largest integer not above the clamped reading. */
  function Sample(reading: real): (n: nat)
    ensures n as real <= (if reading < 0.0 then 0.0 else reading) < n as real + 1.0
  {
    if reading < 0.0 then 0 else reading.Floor
  }

  /** The log line `TELEMETRY_SYNC: {d}mm | {c}°C`. */
  function SyncLine(d: nat, c: nat): string
  {
    "TELEMETRY_SYNC: " + Decimal(d) + "mm | " + Decimal(c) + "°C"
  }

  /** Reads the leading run of decimal digits of `s`. */
  function DigitRun(s: string): (r: string)
    ensures AllDigits(r) && r <= s
    ensures |r| < |s| ==> !IsDigit(s[|r|])
  {
    if s == [] || !IsDigit(s[0]) then [] else [s[0]] + DigitRun(s[1..])
  }

  lemma {:induction false} DigitRunOf(digits: string, rest: string)
    requires AllDigits(digits) && (rest == [] || !IsDigit(rest[0]))
    ensures DigitRun(digits + rest) == digits
  {
    if digits != [] {
      assert (digits + rest)[1..] == digits[1..] + rest;
      DigitRunOf(digits[1..], rest);
    } else {
      assert digits + rest == rest;
    }
  }

  /** A number followed by a non-digit can be read back off the front. */
  lemma DecimalThen(d1: nat, t1: string, d2: nat, t2: string)
    requires t1 != [] && !IsDigit(t1[0]) && t2 != [] && !IsDigit(t2[0])
    requires Decimal(d1) + t1 == Decimal(d2) + t2
    ensures d1 == d2 && t1 == t2
  {
    DigitRunOf(Decimal(d1), t1);
    DigitRunOf(Decimal(d2), t2);
    DecimalInjective(d1, d2);
    assert t1 == (Decimal(d1) + t1)[|Decimal(d1)|..];
    assert t2 == (Decimal(d2) + t2)[|Decimal(d2)|..];
  }

  /**
   * A sync line determines the two samples it reports: distinct sample
   * pairs never produce the same log line.
   */
  lemma SyncLineInjective(d1: nat, c1: nat, d2: nat, c2: nat)
    requires SyncLine(d1, c1) == SyncLine(d2, c2)
    ensures d1 == d2 && c1 == c2
  {
    var u1, u2 := Decimal(c1) + "°C", Decimal(c2) + "°C";
    var t1, t2 := "mm | " + u1, "mm | " + u2;
    SyncLineParts(d1, c1);
    SyncLineParts(d2, c2);
    DropPrefix("TELEMETRY_SYNC: ", Decimal(d1) + t1, Decimal(d2) + t2);
    assert t1[0] == 'm' && t2[0] == 'm';
    DecimalThen(d1, t1, d2, t2);
    DropPrefix("mm | ", u1, u2);
    DecimalThen(c1, "°C", c2, "°C");
  }

  lemma SyncLineParts(d: nat, c: nat)
    ensures SyncLine(d, c) == "TELEMETRY_SYNC: " + (Decimal(d) + ("mm | " + (Decimal(c) + "°C")))
  {
  }

  lemma DropPrefix(p: string, a: string, b: string)
    requires p + a == p + b
    ensures a == b
  {
    assert a == (p + a)[|p|..];
    assert b == (p + b)[|p|..];
  }


  /** `mapValue`: the affine map sending `inMin` to `outMin` and `inMax` to `outMax`. */
  function MapValue(v: real, inMin: real, inMax: real, outMin: real, outMax: real): real
    requires inMin != inMax
  {
    (v - inMin) * (outMax - outMin) / (inMax - inMin) + outMin
  }

  /**
   * `mapValue` fixes the two end points and has one slope everywhere, so it
   * is linear in between.
   */
  lemma MapValueSpec(v: real, w: real, inMin: real, inMax: real, outMin: real, outMax: real)
    requires inMin != inMax
    ensures MapValue(inMin, inMin, inMax, outMin, outMax) == outMin
    ensures MapValue(inMax, inMin, inMax, outMin, outMax) == outMax
    ensures MapValue(w, inMin, inMax, outMin, outMax) - MapValue(v, inMin, inMax, outMin, outMax)
         == (w - v) * (outMax - outMin) / (inMax - inMin)
  {
    var k := inMax - inMin;
    var a := (w - inMin) * (outMax - outMin);
    var b := (v - inMin) * (outMax - outMin);
    assert a / k - b / k == (a - b) / k;
    assert a - b == (w - v) * (outMax - outMin);
  }

  function DistanceY(d: real): real { MapValue(d, 0.0, 300.0, 40.0, 0.0) }
  function CpuY(c: real): real { MapValue(c, 30.0, 70.0, 40.0, 0.0) }

  /**
   * Both sparkline maps turn their nominal input range into the 40-unit
   * chart height upside down: a larger reading is drawn higher.
   */
  lemma ChartRange(d: real, c: real)
    ensures 0.0 <= d <= 300.0 ==> 0.0 <= DistanceY(d) <= 40.0
    ensures 30.0 <= c <= 70.0 ==> 0.0 <= CpuY(c) <= 40.0
    ensures DistanceY(d) == 40.0 - d * 40.0 / 300.0
    ensures CpuY(c) == 40.0 - (c - 30.0)
  {
  }

  /** A history after one tick: drop the oldest sample, append the newest. */
  function Slide(history: seq<real>, sample: real): seq<real>
  {
    Push(history, sample, HistoryLen)
  }

  lemma SlideSpec(history: seq<real>, sample: real)
    requires |history| == HistoryLen
    ensures |Slide(history, sample)| == HistoryLen
    ensures Slide(history, sample) == history[1..] + [sample]
  {
  }

  /** A JavaScript number that may be `NaN` (the x of a one-sample chart). */
  datatype Num = Finite(v: real) | NaN

  /** `(i / (data.length - 1)) * 100`. */
  function XAt(i: nat, n: nat): Num
    requires i < n
  {
    if n == 1 then NaN else Finite(i as real / (n - 1) as real * 100.0)
  }

  /**
   * With two samples or more the x coordinates run from 0 to 100 in equal,
   * strictly increasing steps across the chart.
   */
  lemma XAtSpec(i: nat, j: nat, n: nat)
    requires i < j < n
    ensures XAt(0, n) == Finite(0.0)
    ensures XAt(n - 1, n) == Finite(100.0)
    ensures XAt(i, n).Finite? && XAt(j, n).Finite? && XAt(i, n).v < XAt(j, n).v
    ensures 0.0 <= XAt(i, n).v && XAt(j, n).v <= 100.0
  {
    var m := (n - 1) as real;
    PercentEnds(m);
    PercentLess(i as real, j as real, m);
    PercentWithin(i as real, m);
    PercentWithin(j as real, m);
  }

  lemma PercentEnds(m: real)
    requires m > 0.0
    ensures 0.0 / m * 100.0 == 0.0 && m / m * 100.0 == 100.0
  {
  }

  lemma PercentLess(a: real, b: real, m: real)
    requires a < b && m > 0.0
    ensures a / m * 100.0 < b / m * 100.0
  {
    assert a / m < b / m;
  }

  lemma PercentWithin(a: real, m: real)
    requires 0.0 <= a <= m && m > 0.0
    ensures 0.0 <= a / m * 100.0 <= 100.0
  {
    var q := a / m;
    assert q * m == a;
    assert (1.0 - q) * m == m - a;
    assert (1.0 - q) * m >= 0.0;
  }

  function ShowNum(x: Num, show: real -> string): string
  {
    match x
    case NaN => "NaN"
    case Finite(v) => show(v)
  }

  /** The `x,v` point strings; `show` is JavaScript's number-to-text conversion. */
  function Points(data: seq<real>, show: real -> string): (r: seq<string>)
    ensures |r| == |data|
    ensures forall i :: 0 <= i < |data| ==> r[i] == ShowNum(XAt(i, |data|), show) + "," + show(data[i])
  {
    seq(|data|, i requires 0 <= i < |data| => ShowNum(XAt(i, |data|), show) + "," + show(data[i]))
  }

  datatype Sparkline = Sparkline(path: string, fill: string)

  /** `getSparklinePaths`. */
  function SparklinePaths(data: seq<real>, show: real -> string): Sparkline
  {
    var path := "M " + Join(Points(data, show), " L ");
    Sparkline(path, path + " L 100,40 L 0,40 Z")
  }

  /**
   * For a chart of two samples or more the path opens with a move to the
   * first sample at x = 0 and ends at the last sample at x = 100; the fill
   * closes that path along the chart's bottom edge.
   */
  lemma SparklineShape(data: seq<real>, show: real -> string)
    requires |data| >= 2
    ensures var sp := SparklinePaths(data, show);
      var first := "M " + show(0.0) + "," + show(data[0]);
      var last := show(100.0) + "," + show(data[|data| - 1]);
      && |sp.path| >= |first| && sp.path[..|first|] == first
      && |sp.path| >= |last| && sp.path[|sp.path| - |last|..] == last
      && sp.fill == sp.path + " L 100,40 L 0,40 Z"
  {
    var pts := Points(data, show);
    XAtSpec(0, |data| - 1, |data|);
    JoinEnds(pts, " L ");
    var j := Join(pts, " L ");
    assert ("M " + j)[..2 + |pts[0]|] == "M " + j[..|pts[0]|];
    assert ("M " + j)[|"M " + j| - |pts[|pts| - 1]|..] == j[|j| - |pts[|pts| - 1]|..];
  }

  /** The data page's state: the telemetry record and the two histories. */
  class Simulator {
    var telemetry: Telemetry
    var distHistory: seq<real>
    var cpuHistory: seq<real>
    const startTime: int

    ghost predicate Valid()
      reads this
    {
      |telemetry.logs| <= LogCap && |distHistory| == HistoryLen && |cpuHistory| == HistoryLen
    }

    constructor (startTime: int)
      ensures Valid() && this.startTime == startTime
      ensures telemetry == InitialTelemetry
      ensures distHistory == InitialHistory && cpuHistory == InitialHistory
    {
      this.startTime := startTime;
      telemetry := InitialTelemetry;
      distHistory := InitialHistory;
      cpuHistory := InitialHistory;
    }

    /**
     * One interval callback at wall-clock time `now`. The two readings are
     * the waveform values with their noise (`distBase + distNoise`,
     * `cpuBase + cpuNoise`), computed outside this model.
     */
    method Tick(now: int, distReading: real, cpuReading: real)
      requires Valid()
      modifies this
      ensures Valid()
      ensures var d, c := Sample(distReading), Sample(cpuReading);
        && telemetry == old(telemetry).(ultra_dist := d, cpu_temp := c, uptime := TimeOfDay(now - startTime),
                                        logs := Push(old(telemetry.logs), SyncLine(d, c), LogCap))
        && distHistory == Slide(old(distHistory), DistanceY(d as real))
        && cpuHistory == Slide(old(cpuHistory), CpuY(c as real))
    {
      var newDist := Sample(distReading);
      var newCpu := Sample(cpuReading);
      var newLogs := telemetry.logs + [SyncLine(newDist, newCpu)];
      if |newLogs| > LogCap {
        newLogs := newLogs[1..];
      }
      telemetry := telemetry.(ultra_dist := newDist, cpu_temp := newCpu,
                              uptime := TimeOfDay(now - startTime), logs := newLogs);
      var newDistHist := distHistory + [DistanceY(newDist as real)];
      var newCpuHist := cpuHistory + [CpuY(newCpu as real)];
      if |newDistHist| > HistoryLen {
        newDistHist := newDistHist[1..];
      }
      if |newCpuHist| > HistoryLen {
        newCpuHist := newCpuHist[1..];
      }
      distHistory, cpuHistory := newDistHist, newCpuHist;
    }
  }
}
