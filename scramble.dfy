/**
 * The scramble effect shared by `useScrambleText` and the smart cursor: a
 * text of the target's length whose leading positions are locked to the
 * target and whose other positions are random characters from a fixed
 * 45-character alphabet; and the `useScrambleText` hook, which locks a
 * growing share of the target as time passes and settles on the target
 * once its duration has elapsed.
 */
module Scramble {

  const Chars: string := "ABCDEFGHIJKLMNOPQRSTUVWXYZ0123456789_!@#$%^&*"

  /** `CHARS[Math.floor(Math.random() * CHARS.length)]`. */
  function NoiseChar(random: real): (c: char)
    requires 0.0 <= random < 1.0
    ensures c in Chars
  {
    assert |Chars| == 45;
    assert 0.0 <= random * 45.0 < 45.0;
    Chars[(random * 45.0).Floor]
  }

  predicate ValidNoise(noise: seq<real>)
  {
    forall j :: 0 <= j < |noise| ==> 0.0 <= noise[j] < 1.0
  }

  /**
   * The `map` over the target's characters: position `j` keeps the target's
   * character when `j < lockedBelow`, and otherwise shows the character the
   * random draw `noise[j]` picks.
   */
  function Scrambled(target: string, lockedBelow: real, noise: seq<real>): (r: string)
    requires |noise| == |target| && ValidNoise(noise)
    ensures |r| == |target|
    ensures forall j :: 0 <= j < |target| && (j as real) < lockedBelow ==> r[j] == target[j]
    ensures forall j :: 0 <= j < |target| && (j as real) >= lockedBelow ==> r[j] in Chars
  {
    seq(|target|, j requires 0 <= j < |target| =>
      if (j as real) < lockedBelow then target[j] else NoiseChar(noise[j]))
  }

  /** Once every position is locked, the noise no longer matters. */
  lemma FullyLocked(target: string, lockedBelow: real, noise: seq<real>)
    requires |noise| == |target| && ValidNoise(noise)
    requires lockedBelow >= |target| as real
    ensures Scrambled(target, lockedBelow, noise) == target
  {
  }

  /**
   * Locking is monotone: a position locked at one threshold stays locked,
   * showing the target, at any larger threshold and under any noise.
   */
  lemma LockedStaysLocked(target: string, a: real, b: real, n1: seq<real>, n2: seq<real>, j: nat)
    requires |n1| == |target| && ValidNoise(n1) && |n2| == |target| && ValidNoise(n2)
    requires a <= b && j < |target| && (j as real) < a
    ensures Scrambled(target, a, n1)[j] == Scrambled(target, b, n2)[j] == target[j]
  {
  }

  /** `Math.min(1, elapsed / duration)`. */
  function Progress(elapsed: int, duration: real): (p: real)
    requires duration > 0.0
    ensures p <= 1.0
    ensures p == 1.0 <==> elapsed as real >= duration
  {
    var raw := elapsed as real / duration;
    assert raw >= 1.0 <==> elapsed as real >= duration;
    if raw < 1.0 then raw else 1.0
  }

  /** Progress never goes backwards as time passes. */
  lemma ProgressMonotone(e1: int, e2: int, duration: real)
    requires duration > 0.0 && e1 <= e2
    ensures Progress(e1, duration) <= Progress(e2, duration)
  {
    assert e1 as real / duration <= e2 as real / duration;
  }

  /**
   * What a tick shows `elapsed` ms after the start: the target once the
   * duration has elapsed, and otherwise a scramble with `length * progress`
   * positions locked.
   */
  function Frame(target: string, elapsed: int, duration: real, noise: seq<real>): (r: string)
    requires duration > 0.0 && |noise| == |target| && ValidNoise(noise)
    ensures |r| == |target|
    ensures elapsed as real >= duration ==> r == target
  {
    var p := Progress(elapsed, duration);
    if p >= 1.0 then target else Scrambled(target, |target| as real * p, noise)
  }

  /**
   * A character the hook has locked at elapsed time `e1` is still shown at
   * any later tick `e2`, before or after the end: the revealed prefix only
   * grows.
   */
  lemma RevealedPrefixGrows(target: string, e1: int, e2: int, duration: real, noise: seq<real>, j: nat)
    requires duration > 0.0 && e1 <= e2
    requires |noise| == |target| && ValidNoise(noise)
    requires j < |target| && (j as real) < |target| as real * Progress(e1, duration)
    ensures Frame(target, e2, duration, noise)[j] == target[j]
  {
    ProgressMonotone(e1, e2, duration);
    if Progress(e2, duration) < 1.0 {
      FrameBeforeEnd(target, e2, duration, noise);
      LockedLater(target, Progress(e1, duration), Progress(e2, duration), noise, j);
    } else {
      assert e2 as real >= duration;
    }
  }

  /** A position locked at one progress is locked at any later progress. */
  lemma LockedLater(target: string, p1: real, p2: real, noise: seq<real>, j: nat)
    requires |noise| == |target| && ValidNoise(noise)
    requires p1 <= p2 && j < |target| && (j as real) < |target| as real * p1
    ensures Scrambled(target, |target| as real * p2, noise)[j] == target[j]
  {
    ThresholdGrows(j as real, |target| as real, p1, p2);
  }


  /** Before the end a frame is the scramble at the current progress. */
  lemma FrameBeforeEnd(target: string, elapsed: int, duration: real, noise: seq<real>)
    requires duration > 0.0 && |noise| == |target| && ValidNoise(noise)
    requires Progress(elapsed, duration) < 1.0
    ensures Frame(target, elapsed, duration, noise) == Scrambled(target, |target| as real * Progress(elapsed, duration), noise)
  {
  }


  /** A position below a share of the length stays below any larger share. */
  lemma ThresholdGrows(j: real, l: real, a: real, b: real)
    requires 0.0 <= l && a <= b && j < l * a
    ensures j < l * b
  {
    assert l * b - l * a == l * (b - a);
  }

  /** The hook's state. */
  class Hook {
    var target: string
    var duration: real
    var startTime: int
    var displayText: string
    /** Whether `intervalRef` holds a running interval. */
    var running: bool

    /** The first render shows the target itself. */
    constructor (target: string, duration: real)
      requires duration > 0.0
      ensures this.target == target && this.duration == duration
      ensures displayText == target && !running
    {
      this.target, this.duration := target, duration;
      startTime := 0;
      displayText := target;
      running := false;
    }

    /**
     * The effect on `[targetText, duration]`: restart the interval at `now`.
     * React runs it on mount and then only when the target or the duration
     * changes; a render with both unchanged does not call it.
     */
    method Start(newTarget: string, newDuration: real, now: int)
      requires newDuration > 0.0
      modifies this
      ensures target == newTarget && duration == newDuration && startTime == now && running
      ensures displayText == old(displayText)
    {
      target, duration, startTime := newTarget, newDuration, now;
      running := true;
    }

    /**
     * The 30 ms interval callback at time `now` with one draw per position:
     * the target once the duration has elapsed (and the interval stops),
     * otherwise a scramble locked below `|target| * progress`.
     */
    method Tick(now: int, noise: seq<real>)
      requires running && duration > 0.0
      requires |noise| == |target| && ValidNoise(noise)
      modifies this`displayText, this`running
      ensures displayText == Frame(old(target), now - old(startTime), old(duration), noise)
      ensures running <==> ((now - old(startTime)) as real) < old(duration)
    {
      var p := Progress(now - startTime, duration);
      displayText, running := Frame(target, now - startTime, duration, noise), p < 1.0;
    }
  }
}
