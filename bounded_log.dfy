/**
 * The bounded log of the telemetry pages: each new line is pushed at the end
 * and, when that makes the log longer than its cap, the oldest line is
 * shifted off the front.
 */
module BoundedLog {
  import opened Text

  /** `log.push(x); if (log.length > cap) log.shift();` */
  function Push<T>(log: seq<T>, x: T, cap: nat): (r: seq<T>)
    ensures |log| < cap ==> r == log + [x]
    ensures |log| >= cap ==> r == (log + [x])[1..]
  {
    var grown := log + [x];
    if |grown| > cap then grown[1..] else grown
  }

  /** Pushing each of `xs` in turn. */
  function PushAll<T>(log: seq<T>, xs: seq<T>, cap: nat): seq<T>
  {
    if xs == [] then log else Push(PushAll(log, xs[..|xs| - 1], cap), xs[|xs| - 1], cap)
  }

  lemma PushOntoWindow<T>(s: seq<T>, x: T, cap: nat)
    ensures Push(Last(s, cap), x, cap) == Last(s + [x], cap)
  {
    if |s| >= cap {
      assert (Last(s, cap) + [x])[1..] == (s + [x])[|s| + 1 - cap..];
    }
  }

  /**
   * Starting within the cap, the bounded log always holds exactly the last
   * `cap` lines ever pushed (or all of them): eviction takes the oldest.
   */
  lemma {:induction false} PushAllIsWindow<T>(log: seq<T>, xs: seq<T>, cap: nat)
    requires |log| <= cap
    ensures PushAll(log, xs, cap) == Last(log + xs, cap)
  {
    if xs == [] {
      assert log + xs == log;
    } else {
      var init, x := xs[..|xs| - 1], xs[|xs| - 1];
      assert log + init + [x] == log + xs;
      calc {
        PushAll(log, xs, cap);
        Push(PushAll(log, init, cap), x, cap);
        { PushAllIsWindow(log, init, cap); }
        Push(Last(log + init, cap), x, cap);
        { PushOntoWindow(log + init, x, cap); }
        Last(log + init + [x], cap);
      }
    }
  }

  /**
   * Consequences of the window property: the cap holds, and when no more
   * lines than the cap were pushed they are the newest entries, in order.
   */
  lemma PushAllBounded<T>(log: seq<T>, xs: seq<T>, cap: nat)
    requires |log| <= cap
    ensures |PushAll(log, xs, cap)| <= cap
    ensures |xs| <= cap ==> |PushAll(log, xs, cap)| >= |xs|
    ensures |xs| <= cap ==> PushAll(log, xs, cap)[|PushAll(log, xs, cap)| - |xs|..] == xs
  {
    PushAllIsWindow(log, xs, cap);
    var w := log + xs;
    if |xs| <= cap {
      var r := Last(w, cap);
      assert w[|w| - |xs|..] == xs;
      assert r[|r| - |xs|..] == w[|w| - |xs|..];
    }
  }
}
