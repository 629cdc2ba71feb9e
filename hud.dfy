/**
 * The fixed heads-up display: a fake uptime counter of hours, minutes,
 * seconds and hundredths advanced by 4 hundredths every interval tick with
 * carries into the next field, its two-digit field formatting, and the
 * simulated network latency.
 */
module Hud {
  import opened Text

  /** The `{ h, m, s, ms }` record; `ms` counts hundredths of a second. */
  datatype Uptime = Uptime(h: int, m: int, s: int, ms: int)

  const InitialUptime := Uptime(99, 21, 44, 0)

  /** The fields stay in range and the hundredths stay on the 4-step grid. */
  predicate Valid(t: Uptime)
  {
    && 0 <= t.h && 0 <= t.m < 60 && 0 <= t.s < 60
    && 0 <= t.ms < 100 && t.ms % 4 == 0
  }

  /** The counter read as a single count of hundredths. */
  function Total(t: Uptime): int
  {
    ((t.h * 60 + t.m) * 60 + t.s) * 100 + t.ms
  }

  /** Quotient and remainder are unique for a positive radix. */
  lemma DigitUnique(a: int, x: int, b: int, y: int, k: int)
    requires 0 < k && 0 <= x < k && 0 <= y < k && a * k + x == b * k + y
    ensures a == b && x == y
  {
    MulAwayFromZero(a - b, k);
    assert (a - b) * k == y - x;
  }

  lemma MulAwayFromZero(d: int, k: int)
    requires 0 < k
    ensures d >= 1 ==> d * k >= k
    ensures d <= -1 ==> d * k <= -k
  {
    if d >= 1 {
      assert (d - 1) * k >= 0;
    } else if d <= -1 {
      assert (-d - 1) * k >= 0;
    }
  }

  /** A valid counter is determined by its total: the carries lose nothing. */
  lemma TotalDetermines(t: Uptime, u: Uptime)
    requires Valid(t) && Valid(u) && Total(t) == Total(u)
    ensures t == u
  {
    DigitUnique((t.h * 60 + t.m) * 60 + t.s, t.ms, (u.h * 60 + u.m) * 60 + u.s, u.ms, 100);
    DigitUnique(t.h * 60 + t.m, t.s, u.h * 60 + u.m, u.s, 60);
    DigitUnique(t.h, t.m, u.h, u.m, 60);
  }

  /**
   * The `setTime` updater of one 40 ms tick. From a valid counter it moves
   * the total on by exactly 4 hundredths and stays valid; the hours never
   * decrease and are never wrapped.
   */
  method Advance(prev: Uptime) returns (next: Uptime)
    ensures next.h >= prev.h
    ensures Valid(prev) ==> Valid(next) && Total(next) == Total(prev) + 4
  {
    var h, m, s, ms := prev.h, prev.m, prev.s, prev.ms;
    ms := ms + 4;
    if ms >= 100 {
      ms := 0;
      s := s + 1;
    }
    if s >= 60 {
      s := 0;
      m := m + 1;
    }
    if m >= 60 {
      m := 0;
      h := h + 1;
    }
    next := Uptime(h, m, s, ms);
  }

  /** The display's uptime state. */
  class UptimeCounter {
    var time: Uptime

    constructor ()
      ensures time == InitialUptime && Valid(time)
    {
      time := InitialUptime;
    }

    /** The interval callback: `setTime(updater)`. */
    method Tick()
      requires Valid(time)
      modifies this
      ensures Valid(time) && Total(time) == Total(old(time)) + 4 && time.h >= old(time).h
    {
      time := Advance(time);
    }
  }

  /** `n.toString().padStart(2, '0')`. */
  function Fmt(n: nat): string
  {
    PadStart(Decimal(n), 2, '0')
  }

  lemma PadStartZeros(s: string, width: nat)
    ensures PadStart(s, width, '0') == Repeat('0', |PadStart(s, width, '0')| - |s|) + s
  {
    var r := PadStart(s, width, '0');
    var z := Repeat('0', |r| - |s|);
    assert r == r[..|r| - |s|] + r[|r| - |s|..];
    assert r[..|r| - |s|] == z;
  }

  /**
   * `fmt` gives at least two digits, reads back as the number, and never
   * truncates: a three-digit hour such as 100 prints in full.
   */
  lemma FmtSpec(n: nat)
    ensures |Fmt(n)| >= 2 && AllDigits(Fmt(n))
    ensures ParseDecimal(Fmt(n)) == n
    ensures n < 10 ==> |Fmt(n)| == 2 && Fmt(n)[0] == '0'
    ensures n >= 10 ==> Fmt(n) == Decimal(n)
  {
    var d := Decimal(n);
    PadStartZeros(d, 2);
    ParseDecimalLeadingZeros(|Fmt(n)| - |d|, d);
    ParseDecimalOfDecimal(n);
    if n >= 10 {
      assert Fmt(n) == d;
    }
  }

  /** `Math.floor(Math.random() * (24 - 10 + 1) + 10)`. */
  function Latency(random: real): (ms: int)
    requires 0.0 <= random < 1.0
    ensures 10 <= ms <= 24
  {
    assert 0.0 <= random * 15.0 < 15.0;
    (random * 15.0 + 10.0).Floor
  }

  /** Every latency from 10 to 24 ms is reachable. */
  lemma LatencyReachable(ms: int)
    requires 10 <= ms <= 24
    ensures Latency((ms - 10) as real / 15.0) == ms
  {
    var r := (ms - 10) as real / 15.0;
    assert r * 15.0 + 10.0 == ms as real;
  }
}
