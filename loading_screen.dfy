/**
 * The press-and-hold loading screen: every animation frame the progress
 * rises by 1.5 while pressed and falls by 2 while released, clamped to
 * [0, 100]; the first frame that sees a full bar while not yet exiting
 * starts the exit and schedules `onComplete` 800 ms later. A frame reads
 * the progress the component was rendered with, so completion is detected
 * on the frame after the bar fills.
 */
module LoadingScreen {

  const Full: real := 100.0
  const Rise: real := 1.5
  const Fall: real := 2.0
  const CompleteDelayMs: nat := 800

  /** The progress after one frame, from the rendered press flag and progress. */
  function NextProgress(pressed: bool, p: real): real
  {
    if pressed && p < Full then (if p + Rise < Full then p + Rise else Full)
    else if !pressed && p > 0.0 then (if p - Fall > 0.0 then p - Fall else 0.0)
    else p
  }

  /**
   * A frame keeps the progress within [0, 100]; it never falls while
   * pressed and never rises while released; it moves by at most one step.
   */
  lemma NextProgressSpec(pressed: bool, p: real)
    requires 0.0 <= p <= Full
    ensures 0.0 <= NextProgress(pressed, p) <= Full
    ensures pressed ==> p <= NextProgress(pressed, p) <= p + Rise
    ensures !pressed ==> p - Fall <= NextProgress(pressed, p) <= p
    ensures pressed && p < Full ==> NextProgress(pressed, p) > p
    ensures !pressed && p > 0.0 ==> NextProgress(pressed, p) < p
  {
  }

  /** Progress after `frames` frames with the same press flag. */
  function Frames(pressed: bool, p: real, frames: nat): real
  {
    if frames == 0 then p else NextProgress(pressed, Frames(pressed, p, frames - 1))
  }

  /**
   * Holding for `k` frames fills the bar to `min(100, p + 1.5k)`;
   * releasing for `k` frames drains it to `max(0, p - 2k)`.
   */
  lemma {:induction false} FramesClosedForm(p: real, k: nat)
    requires 0.0 <= p <= Full
    ensures var up := p + Rise * k as real;
      Frames(true, p, k) == if up < Full then up else Full
    ensures var down := p - Fall * k as real;
      Frames(false, p, k) == if down > 0.0 then down else 0.0
  {
    if k > 0 {
      FramesClosedForm(p, k - 1);
    }
  }

  /** The screen's state. */
  class Screen {
    var isPressed: bool
    var progress: real
    var isExiting: bool
    /** `onComplete` timers scheduled and not yet fired. */
    var pendingCompletes: nat
    /** Calls of `onComplete` so far. */
    var completions: nat

    ghost predicate Valid()
      reads this
    {
      && 0.0 <= progress <= Full
      && (isExiting <==> pendingCompletes + completions == 1)
      && (!isExiting ==> pendingCompletes == 0 && completions == 0)
    }

    constructor ()
      ensures Valid()
      ensures !isPressed && progress == 0.0 && !isExiting && pendingCompletes == 0 && completions == 0
    {
      isPressed, progress, isExiting := false, 0.0, false;
      pendingCompletes, completions := 0, 0;
    }

    /** Mouse or touch down. */
    method Press()
      modifies this`isPressed
      ensures isPressed
    {
      isPressed := true;
    }

    /** Mouse or touch up. */
    method Release()
      modifies this`isPressed
      ensures !isPressed
    {
      isPressed := false;
    }

    /**
     * `animate`: one animation frame. Completion (`handleTriggerComplete`)
     * fires when the rendered progress is full and the screen is not yet
     * exiting, and then only once.
     */
    method Frame() returns (triggered: bool)
      requires Valid()
      modifies this`progress, this`isExiting, this`pendingCompletes
      ensures Valid()
      ensures progress == NextProgress(isPressed, old(progress))
      ensures triggered <==> old(progress) >= Full && !old(isExiting)
      ensures triggered ==> isExiting && pendingCompletes == old(pendingCompletes) + 1
      ensures !triggered ==> isExiting == old(isExiting) && pendingCompletes == old(pendingCompletes)
    {
      var rendered := progress;
      NextProgressSpec(isPressed, progress);
      if isPressed && rendered < Full {
        progress := if progress + Rise < Full then progress + Rise else Full;
      } else if !isPressed && rendered > 0.0 {
        progress := if progress - Fall > 0.0 then progress - Fall else 0.0;
      }
      triggered := rendered >= Full && !isExiting;
      if triggered {
        isExiting := true;
        pendingCompletes := pendingCompletes + 1;
      }
    }

    /** The 800 ms timeout that calls `onComplete`. */
    method FireComplete() returns (fired: bool)
      requires Valid()
      modifies this`pendingCompletes, this`completions
      ensures Valid()
      ensures fired <==> old(pendingCompletes) > 0
      ensures fired ==> pendingCompletes == old(pendingCompletes) - 1 && completions == old(completions) + 1
      ensures !fired ==> pendingCompletes == old(pendingCompletes) && completions == old(completions)
    {
      fired := pendingCompletes > 0;
      if fired {
        pendingCompletes := pendingCompletes - 1;
        completions := completions + 1;
      }
    }
  }

  /**
   * Holding the button from an empty bar: the bar is full after 67 frames
   * and the exit starts on the 68th, exactly once.
   */
  method HoldUntilExit() returns (frames: nat, progress: real, scheduled: nat)
    ensures frames == 68 && progress == Full && scheduled == 1
  {
    var s := new Screen();
    s.Press();
    frames := 0;
    var triggered := false;
    while !triggered
      invariant s.Valid() && s.isPressed
      invariant frames <= 68
      invariant frames <= 67 ==> s.progress == Frames(true, 0.0, frames) && !s.isExiting && !triggered
      invariant frames == 68 ==> s.progress == Full && s.isExiting && s.pendingCompletes == 1 && triggered
      decreases 68 - frames
    {
      FramesClosedForm(0.0, frames);
      FramesClosedForm(0.0, 66);
      triggered := s.Frame();
      frames := frames + 1;
    }
    progress, scheduled := s.progress, s.pendingCompletes;
  }
}
