/**
 * `new Date(ms).toISOString().substr(11, 8)`: the UTC time of day of a
 * millisecond count as `HH:MM:SS`. Whole days are dropped, so the hours are
 * taken modulo 24. Dafny's `/` and `%` with a positive divisor round toward
 * minus infinity, which is what the date arithmetic does for negative counts.
 */
module IsoClock {
  import opened Text
  import opened Wrappers

  const MsPerDay: int := 86_400_000

  /** A two-digit field of the time, zero-filled. */
  function Two(n: nat): (r: string)
    requires n < 100
    ensures |r| == 2 && IsDigit(r[0]) && IsDigit(r[1])
    ensures Read2(r) == n
  {
    [DigitChar(n / 10), DigitChar(n % 10)]
  }

  function Read2(r: string): nat
    requires |r| == 2 && IsDigit(r[0]) && IsDigit(r[1])
  {
    DigitValue(r[0]) * 10 + DigitValue(r[1])
  }

  /** Whole seconds since the last UTC midnight. */
  function SecondOfDay(ms: int): (q: nat)
    ensures q < 86400
  {
    (ms / 1000) % 86400
  }

  function Hours(ms: int): nat { SecondOfDay(ms) / 3600 }
  function Minutes(ms: int): nat { SecondOfDay(ms) / 60 % 60 }
  function Seconds(ms: int): nat { SecondOfDay(ms) % 60 }

  /** `HH:MM:SS` from its three fields. */
  function Clock(h: nat, m: nat, sec: nat): (r: string)
    requires h < 100 && m < 100 && sec < 100
    ensures |r| == 8 && r[2] == ':' && r[5] == ':'
    ensures IsDigit(r[0]) && IsDigit(r[1]) && Read2(r[..2]) == h
    ensures IsDigit(r[3]) && IsDigit(r[4]) && Read2(r[3..5]) == m
    ensures IsDigit(r[6]) && IsDigit(r[7]) && Read2(r[6..]) == sec
  {
    var r := Two(h) + ":" + Two(m) + ":" + Two(sec);
    assert r[..2] == Two(h);
    assert r[3..5] == Two(m);
    assert r[6..] == Two(sec);
    r
  }

  function TimeOfDay(ms: int): (r: string)
    ensures |r| == 8
  {
    Clock(Hours(ms), Minutes(ms), Seconds(ms))
  }

  /** Reads an `HH:MM:SS` string back into seconds since midnight. */
  function ReadTimeOfDay(r: string): Option<nat>
  {
    if |r| == 8 && r[2] == ':' && r[5] == ':' && IsDigit(r[0]) && IsDigit(r[1]) && IsDigit(r[3]) && IsDigit(r[4]) && IsDigit(r[6]) && IsDigit(r[7])
    then Some(Read2(r[..2]) * 3600 + Read2(r[3..5]) * 60 + Read2(r[6..]))
    else None
  }

  lemma SplitSeconds(q: nat, h: nat, m: nat, sec: nat)
    requires h == q / 3600 && m == q / 60 % 60 && sec == q % 60
    ensures q == h * 3600 + m * 60 + sec
  {
    var rest := q % 3600;
    assert q == 3600 * h + rest;
    assert q == 3600 * h + 60 * (rest / 60) + rest % 60;
    assert q / 60 == 60 * h + rest / 60;
  }

  lemma ReadClock(h: nat, m: nat, sec: nat)
    requires h < 100 && m < 100 && sec < 100
    ensures ReadTimeOfDay(Clock(h, m, sec)) == Some(h * 3600 + m * 60 + sec)
  {
  }

  /**
   * The rendered time of day reads back as the whole seconds elapsed since
   * the last UTC midnight: the rendering loses exactly the days and the
   * milliseconds.
   */
  lemma ReadTimeOfDayOfTimeOfDay(ms: int)
    ensures ReadTimeOfDay(TimeOfDay(ms)) == Some(SecondOfDay(ms))
  {
    var q := SecondOfDay(ms);
    var h, m, sec := q / 3600, q / 60 % 60, q % 60;
    ReadClock(h, m, sec);
    SplitSeconds(q, h, m, sec);
  }
}
