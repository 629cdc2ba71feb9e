/**
 * The `useTypewriter` hook. Each run of its effect resets the text and, when
 * typing should start, schedules a start timer; the start timer creates a
 * reveal interval that shows one more character of the text per tick and
 * marks the text complete on the tick after the last character.
 *
 * The cleanup that the start timer's callback returns is discarded by the
 * timer, so a re-run of the effect cancels only a start timer that has not
 * fired yet: an interval already running keeps revealing its old text. The
 * class below models both the effect as written (`Run`) and with the
 * interval cleared as well (`RunWithCleanup`).
 */
module Typewriter {

  /** A reveal interval: its text and its local counter `i`. */
  datatype Reveal = Reveal(text: string, i: nat)

  class Hook {
    /** The effect's current arguments. */
    var text: string
    var shouldStart: bool
    var displayText: string
    var isComplete: bool
    /** Whether the start timer of the current effect run is pending. */
    var startPending: bool
    /** Reveal intervals still running, oldest first. */
    var intervals: seq<Reveal>

    /**
     * What the hook promises its callers: the shown text is a prefix of the
     * text, complete only when whole, empty while typing should not start,
     * and driven by at most one interval that reveals the current text.
     */
    ghost predicate Valid()
      reads this
    {
      && displayText <= text
      && (isComplete ==> displayText == text)
      && (!shouldStart ==> displayText == "" && !isComplete && !startPending && intervals == [])
      && (startPending ==> displayText == "" && !isComplete && intervals == [])
      && |intervals| <= 1
      && (forall r :: r in intervals ==> r.text == text && r.i <= |text| && displayText == text[..r.i] && !isComplete)
    }

    /** The first render: nothing shown, nothing scheduled. */
    constructor (text: string)
      ensures Valid() && this.text == text && !shouldStart
      ensures displayText == "" && !isComplete && !startPending && intervals == []
    {
      this.text := text;
      shouldStart := false;
      displayText, isComplete := "", false;
      startPending, intervals := false, [];
    }

    /**
     * The effect as written, re-run with new arguments: the previous run's
     * start timer is cancelled, but its running intervals are not. React
     * re-runs it only when one of `text`, `speed`, `startDelay` or
     * `shouldStart` changes; a render with all four unchanged does not call it.
     */
    method Run(newText: string, start: bool)
      modifies this
      ensures text == newText && shouldStart == start
      ensures displayText == "" && !isComplete
      ensures startPending == start
      ensures intervals == old(intervals)
    {
      text, shouldStart := newText, start;
      displayText, isComplete := "", false;
      startPending := start;
    }

    /** The effect with the interval's cleanup honoured: every interval stops. */
    method RunWithCleanup(newText: string, start: bool)
      modifies this
      ensures Valid()
      ensures text == newText && shouldStart == start
      ensures displayText == "" && !isComplete
      ensures startPending == start && intervals == []
    {
      text, shouldStart := newText, start;
      displayText, isComplete := "", false;
      startPending := start;
      intervals := [];
    }

    /** The start timer fires: a reveal interval over the text begins at 0. */
    method FireStart() returns (fired: bool)
      requires Valid()
      modifies this
      ensures Valid()
      ensures fired <==> old(startPending)
      ensures fired ==> !startPending && intervals == old(intervals) + [Reveal(text, 0)]
      ensures !fired ==> intervals == old(intervals) && !startPending
      ensures text == old(text) && shouldStart == old(shouldStart)
      ensures displayText == old(displayText) && isComplete == old(isComplete)
    {
      fired := startPending;
      if fired {
        startPending := false;
        intervals := intervals + [Reveal(text, 0)];
      }
    }

    /**
     * Interval `k` ticks: while its counter is below its text's length it
     * shows one more character, otherwise it marks the text complete and
     * clears itself.
     */
    method TickInterval(k: nat)
      requires k < |intervals|
      modifies this
      ensures var r := old(intervals)[k];
        && (r.i < |r.text| ==>
              displayText == r.text[..r.i + 1] && isComplete == old(isComplete)
              && intervals == old(intervals)[k := Reveal(r.text, r.i + 1)])
        && (r.i >= |r.text| ==>
              displayText == old(displayText) && isComplete
              && intervals == old(intervals)[..k] + old(intervals)[k + 1..])
      ensures text == old(text) && shouldStart == old(shouldStart) && startPending == old(startPending)
      ensures old(Valid()) ==> Valid()
      ensures old(Valid()) && old(intervals)[k].i < |text| ==> |displayText| == |old(displayText)| + 1
    {
      var r := intervals[k];
      if r.i < |r.text| {
        displayText := r.text[..r.i + 1];
        intervals := intervals[k := Reveal(r.text, r.i + 1)];
      } else {
        isComplete := true;
        intervals := intervals[..k] + intervals[k + 1..];
      }
    }
  }

  /**
   * Typing a text from the start with the cleanup in place: the reveal
   * ticks show the prefixes of length 1, 2, ... in order and the tick after
   * the last character completes the text.
   */
  method TypeOut(text: string) returns (shown: seq<string>, display: string, complete: bool)
    ensures |shown| == |text|
    ensures forall k :: 0 <= k < |text| ==> shown[k] == text[..k + 1]
    ensures display == text && complete
  {
    var h := new Hook(text);
    h.RunWithCleanup(text, true);
    var _ := h.FireStart();
    shown := [];
    while |shown| < |text|
      invariant h.Valid() && h.text == text && h.shouldStart && !h.startPending
      invariant |shown| <= |text| && h.intervals == [Reveal(text, |shown|)]
      invariant forall k :: 0 <= k < |shown| ==> shown[k] == text[..k + 1]
      decreases |text| - |shown|
    {
      h.TickInterval(0);
      shown := shown + [h.displayText];
    }
    h.TickInterval(0);
    display, complete := h.displayText, h.isComplete;
  }

  /**
   * The leak: start typing "AB", let the start timer fire, then switch the
   * hook off. The effect as written leaves the interval running, and its
   * next tick shows "A" although typing should not have started.
   */
  method StaleIntervalAfterStop() returns (display: string, shouldStart: bool)
    ensures display == "A" && !shouldStart
  {
    var h := new Hook("AB");
    h.Run("AB", true);
    var _ := h.FireStart();
    h.Run("AB", false);
    h.TickInterval(0);
    display, shouldStart := h.displayText, h.shouldStart;
  }

  /** The same sequence with the cleanup in place leaves nothing to tick. */
  method NoIntervalAfterStop() returns (display: string, running: nat)
    ensures display == "" && running == 0
  {
    var h := new Hook("AB");
    h.RunWithCleanup("AB", true);
    var _ := h.FireStart();
    h.RunWithCleanup("AB", false);
    display, running := h.displayText, |h.intervals|;
  }
}
